# DataMarshal in Dafny

`DataMarshal` (`lib/data_marshal.rb`) packs the whole state of a Calagator
server into one archive and unpacks it again elsewhere. The state is its
relational database and its Solr search index. A dump asks `DbMarshal` and
`SolrMarshal` to export each store into a file in a dump directory. It then
asks `EasyTgz` to pack those two files, each under its base name, into the
target archive. A restore extracts an archive into the dump directory and
asks both marshals to import from the same files.

The model has five modules:

- `Wrappers` (`wrappers.dfy`): `Option` for Ruby's nil-or-value and
  `Result` for raise-or-return.
- `RubyFile` (`ruby_file.dfy`): `File.basename`, with Unix semantics.
- `Strftime` (`strftime.dfy`): the `'%Y-%m-%d@%H%M%S'` time format over
  integer clock fields. It includes the proof that formatted times sort
  as strings in the order of the times.
- `Marshalling` (`data_marshal.dfy`): the marshaller. It has the
  constructor's defaulting (`Configure`), target resolution
  (`FilenameOrDefault`, `DumpTarget`, `RestoreTarget`) and the one-minute
  cache test (`CacheHit`). It also has the class `DataMarshal`, whose
  methods `Dump`, `DumpCached`, `Restore` and `PrepareDumpDir` append every
  collaborator call to a `trace` field as an `Event`. The class-level
  `DataMarshal.dump`, `.dump_cached` and `.restore` are `ClassDump`,
  `ClassDumpCached` and `ClassRestore`. Each builds a fresh marshaller with
  no options.
- `Stores` (`stores.dfy`): what the marshaller expects of its
  collaborators, written as a state machine over the two stores and a
  file map. `Step` and `Run` give the effect of the recorded calls. The
  lemmas prove that a dump followed by a restore of its archive gives
  both stores back their state. This holds on the same machine and on any
  machine the archive is copied to, as long as the intermediate files lie
  in the dump directory under their base names and are two different files.

The clock, the file system and the Rails constants are inputs:
- `RAILS_ROOT` is a constructor parameter.
- `RAILS_ENV`, the formatted timestamp, `Time.now` (in seconds, as a
  `real`) and the `File.mtime` of every existing file (a map) form the
  `Env` given to `Dump`.

Two behaviours of the code as written are kept on purpose:
- On a cache hit, `dump` returns its argument, not the target, so it
  returns nil when the target was defaulted (`Dump`'s contract).
- `restore` hands its argument, not the resolved target, to the archive
  codec (line 84). So `restore(nil)` on a marshaller configured with a
  `filename` passes nil to `EasyTgz.extract` (`RestoreCalls`,
  `Stores.RestoreWithoutArgumentFails`).

`dump_cached` sets `use_cache` on the instance (line 55), and the field
stays true for every later call on that instance.

## Model

| member | source | states |
|---|---|---|
| `Marshalling.Configure` | lib/data_marshal.rb:38-44 | `filename` is the option as given. `dump_dir` is the option if given, else `RAILS_ROOT + "/tmp/dumps"`. `sql_filename` and `solr_filename` are the option if given, else `dump_dir + "/current.sql"` / `"/current.solr"`. `use_cache` is true exactly when the option is the value `true` |
| `Marshalling.DataMarshal.constructor` | lib/data_marshal.rb:38-44 | the new marshaller's fields are `Configure(opts, RAILS_ROOT)` and no collaborator has been called |
| `Marshalling.DefaultLayout` | lib/data_marshal.rb:40-42 | without overrides for the intermediate files, the archive entries are `current.sql` and `current.solr`, both in the dump directory, for any dump directory. Such a layout extracts in place: each file is `dump_dir + "/" + basename`, and the two files are distinct |
| `RubyFile.Basename` | lib/data_marshal.rb:72-73 | the base name is the last component of the path once trailing slashes are dropped: it occurs in the path right after a '/' or at its start, and only '/' follows it. It has no '/' (except "/" for an all-slash path) and is empty only for the empty path |
| `RubyFile.BasenameOfJoin` | lib/data_marshal.rb:72-73 | the base name of `dir + "/" + name` is `name`, for any directory and any non-empty name without '/' |
| `Marshalling.DefaultFilename` | lib/data_marshal.rb:51 | the generated name is `RAILS_ENV`, a dot, the timestamp, then `.data` |
| `Strftime.Format` | lib/data_marshal.rb:51 | `'%Y-%m-%d@%H%M%S'` gives 17 characters for a four-digit year, with '-', '-' and '@' at positions 4, 7 and 10 |
| `Strftime.FormatOrder` | lib/data_marshal.rb:51 | one formatted time is smaller as a string exactly when its wall-clock fields are earlier, and two are equal exactly when the fields are (four-digit years) |
| `Marshalling.DefaultFilenamesSortByTime` | lib/data_marshal.rb:50-52 | generated archive names of one environment sort by the wall-clock time (local date and time fields) they were generated at, and differ whenever those fields differ; around a daylight-saving fall-back the wall-clock order need not be the order of the instants |
| `Marshalling.FilenameOrDefault` | lib/data_marshal.rb:50-52 | the configured `filename` if set, else the generated name |
| `Marshalling.DumpTarget` | lib/data_marshal.rb:61 | the dump target is the argument if given, else the configured `filename`, else the generated name |
| `Marshalling.CacheHit` | lib/data_marshal.rb:63 | a hit needs caching on and an existing target; then it is a hit exactly when the target is less than 60 seconds old (strictly) |
| `Marshalling.Entries` | lib/data_marshal.rb:71-74 | the archive packs the SQL file and then the Solr file, each under its `File.basename` (`RubyFile.Basename`: no '/', except "/" for an all-slash path) |
| `Marshalling.DataMarshal.PrepareDumpDir` | lib/data_marshal.rb:46-48 | exactly one `Mkdir(dump_dir)` call is recorded |
| `Marshalling.DataMarshal.Dump` | lib/data_marshal.rb:59-77 | on a cache hit, the result is the argument as given (nil when defaulted) and no call is made. Otherwise the calls are exactly mkdir, database dump, Solr dump, then archive creation of the target from `Entries`, and the result is the target |
| `Marshalling.DataMarshal.DumpCached` | lib/data_marshal.rb:54-57 | `use_cache` becomes and stays true, the other fields are unchanged, and the result and calls are those of `dump` with caching on |
| `Marshalling.RestoreTarget` | lib/data_marshal.rb:80-81 | restore has a target exactly when the argument or the configured `filename` is set; it is the argument when given, else the configured `filename` |
| `Marshalling.DataMarshal.Restore` | lib/data_marshal.rb:79-90 | with no argument and no `filename`, raises `ArgumentError("No filename specified")` and makes no call. Otherwise the calls are mkdir, extraction of the argument (not the resolved target) into `dump_dir`, database restore, then Solr restore, and the result is true |
| `Marshalling.ClassDump` | lib/data_marshal.rb:20-22 | a fresh default marshaller never reuses an archive: it always makes the four dump calls and returns the target |
| `Marshalling.ClassDumpCached` | lib/data_marshal.rb:24-26 | a fresh default marshaller with caching on either returns the argument and makes no call, or makes the four dump calls and returns the target |
| `Marshalling.ClassRestore` | lib/data_marshal.rb:28-30 | a fresh default marshaller has no `filename`, so restore of nil raises `ArgumentError`; any given path is restored with the four restore calls |
| `Stores.Pack` | lib/data_marshal.rb:71-74 | packing succeeds exactly when every file to pack exists, and the i-th member is the i-th file's contents under its entry name |
| `Stores.DumpEffect` | lib/data_marshal.rb:67-76 | a dump that reuses nothing succeeds, does not touch either store, and writes the target. With distinct intermediate files, the target holds each store's image under its file's base name |
| `Stores.ExtractInPlace` | lib/data_marshal.rb:83-84 | extracting that archive into the dump directory writes each image back to its intermediate file, when the layout extracts in place |
| `Stores.RestoreEffect` | lib/data_marshal.rb:83-89 | restoring such an archive succeeds and sets both stores to the images it holds |
| `Stores.DumpThenRestoreElsewhere` | lib/data_marshal.rb:59-90 | when the layout extracts in place (the intermediate files are two different files, each the dump directory joined with its base name; the default configuration does, see `DefaultLayout`), the archive a dump produces, copied to any machine, restores both stores to their state at dump time |
| `Stores.DumpThenRestore` | lib/data_marshal.rb:59-90 | when the layout extracts in place (the default configuration does, see `DefaultLayout`), dump followed by restore of the produced target, on one machine, leaves both stores as they were |
| `Stores.DumpThenRestoreSession` | lib/data_marshal.rb:59-90 | on one marshaller with caching off, `dump(nil)` returns the target, `restore` of that target returns true, and the recorded calls are the dump's followed by the restore's; when the layout extracts in place they give both stores back their state |
| `Stores.RestoreWithoutArgumentFails` | lib/data_marshal.rb:84 | a restore that was given no argument hands nil to the archive codec and fails at extraction, even when `filename` is configured |
| `Stores.OverriddenSqlPathNotRestored` | lib/data_marshal.rb:41 | for every configuration whose `sql_filename` names a file other than `dump_dir/basename(sql_filename)` (and other than where the Solr image extracts to), compared as path strings,, restoring the archive on a machine without that file fails: the database image extracts into `dump_dir`, but the restore reads `sql_filename` |

## Left out

- The internals of `DbMarshal`, `SolrMarshal` and `EasyTgz` (lines 1-3) are not part of this model. In `Marshalling` each call is only a recorded `Event`. `Stores` gives them the plain effect the marshaller relies on: an export writes the store's state to a file, an import reads it back, an archive packs and extracts named files. Their file formats and compression are not modelled.
- An exception raised by a collaborator part-way through a dump or restore is not modelled in `Marshalling`: the code does not handle it. In `Stores` a failing call ends the run with no world, and nothing is said about partial state.
- `Stores.Step` treats `EasyTgz.extract` given nil as a failure. What the real library does with nil is not part of this model.
- `FileUtils.mkdir_p` is an event only; `Stores` does not track directories.
- `File.exist?`, `File.mtime` and `Time.now` are inputs (`Env.mtimes`, `Env.now`), read once per dump. The strftime output reaches `Dump` as an opaque `Env.stamp`. `Strftime.Format` models the format separately, over integer clock fields, with no calendar or time zone.
- `Strftime.FormatOrder` and `Marshalling.DefaultFilenamesSortByTime` are stated for years below 10000 only. For larger years `%Y` prints more digits and the names no longer sort by time.
- Years before year 0 are not modelled, since `Clock.year` is a `nat`.
- The `:dump_dir`, `:sql_filename`, `:solr_filename` and `:filename` options are typed as string or nil. A `false` value behaves like nil under Ruby's `||`. Other non-string values, which Ruby would interpolate, are not modelled.
- The `attr_accessor` setters are not separate methods. The fields of `DataMarshal` are public and can be assigned directly.
- `Stores.DumpThenRestoreSession` covers a marshaller with caching off only. With caching on, a cache hit makes `dump(nil)` return nil, and the restore that follows depends on the configured `filename` (`Dump`, `Restore` and `RestoreWithoutArgumentFails` state those cases).
- `Stores.OverriddenSqlPathNotRestored`: `Stores` identifies a file by its path string and does not normalise paths. So `d//x`, `d/./x`, and a relative and an absolute path to one place are different files in the model, although the program would find the same file under each (a relative path resolves against the working directory, which is `RAILS_ROOT` under Rails). The lemma's failure holds only where the two strings also name different files. The round-trip lemmas are unaffected: `ExtractsInPlace` compares strings, which is stricter than comparing files.
- Races between concurrent dumps over the shared intermediate files are not modelled; the model is sequential.

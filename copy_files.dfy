/** The `copyFiles` pipeline step: copies one file or directory to every path
    of a destination list, deleting whatever each destination held before,
    and writes a mapfile with one record per destination.

    The filesystem is a map from path to what the path holds. Every path is
    an independent name: a directory is a value carrying its whole tree, so
    `shutil.copytree` copies that value and `delete_directory` drops it. */
module CopyFiles {
  import opened Python
  import opened PyStrings
  import opened Mapfiles

  /** A regular file with its contents, or a directory with its entries. */
  datatype Node = Regular(data: seq<int>) | Directory(children: map<string, Node>)

  type FsMap = map<string, Node>

  /** The state a sequence of filesystem calls leaves behind, and the
      exception that stopped it, if one did. */
  datatype Step = Step(fs: FsMap, failure: Option<PyError>)

  // ---------------------------------------------------------------------
  // The replication, as a function of the filesystem
  // ---------------------------------------------------------------------

  /** `os.path.exists`: the empty path never exists. */
  predicate PathExists(fs: FsMap, p: string) {
    p != "" && p in fs
  }

  /** `os.path.isdir` */
  predicate PathIsDir(fs: FsMap, p: string) {
    PathExists(fs, p) && fs[p].Directory?
  }

  /** One pass of the destination loop: a directory source replaces an existing
      directory at `dest` by `delete_directory` and then `shutil.copytree`; any
      other source replaces an existing file by `os.remove` and then
      `shutil.copyfile`. Removing a file with `delete_directory`, or a directory
      with `os.remove`, raises `OSError` before anything changes; a source that
      is gone by the time it is copied (it was `dest` itself) or never existed
      raises after the removal: `OSError` from the `os.listdir` of `copytree`,
      `IOError` from the `open` of `copyfile`. The empty destination never
      exists and cannot be created: `copytree` raises `OSError` from
      `os.makedirs`, `copyfile` raises `IOError` from opening the source or,
      once that succeeds, the target. */
  function CopyStep(fs: FsMap, src: string, dest: string): Step {
    var srcIsDir := PathIsDir(fs, src);
    if dest == "" then
      Step(fs, Some(if srcIsDir then OSError(dest) else if PathExists(fs, src) then IOError(dest) else IOError(src)))
    else if dest in fs && fs[dest].Directory? != srcIsDir then
      Step(fs, Some(OSError(dest)))
    else
      var cleared := fs - {dest};
      if PathExists(cleared, src) then Step(cleared[dest := cleared[src]], None)
      else Step(cleared, Some(if srcIsDir then OSError(src) else IOError(src)))
  }

  /** The destination loop over `dests`, in order, stopping at the first
      exception. */
  function Replicate(fs: FsMap, src: string, dests: seq<string>): Step
    decreases |dests|
  {
    if |dests| == 0 then Step(fs, None)
    else
      var prev := Replicate(fs, src, dests[..|dests| - 1]);
      if prev.failure.Some? then prev else CopyStep(prev.fs, src, dests[|dests| - 1])
  }

  /** The loop completes: the source exists, is not itself a destination, no
      destination is the empty path, and every destination that already exists
      is of the source's kind. */
  ghost predicate Replicable(fs: FsMap, src: string, dests: seq<string>) {
    |dests| == 0 ||
    (&& PathExists(fs, src)
     && src !in dests
     && "" !in dests
     && forall d :: d in dests && d in fs ==> fs[d].Directory? == fs[src].Directory?)
  }

  /** `fs` with every destination holding a copy of the source. */
  ghost function Copied(fs: FsMap, src: string, dests: seq<string>): FsMap
    requires src in fs
  {
    fs + map d | d in dests :: fs[src]
  }

  /** Only the destinations may differ between `fs` and `fs'`. */
  ghost predicate ChangesOnly(fs: FsMap, fs': FsMap, dests: seq<string>) {
    forall p :: p !in dests ==> (p in fs' <==> p in fs) && (p in fs ==> fs'[p] == fs[p])
  }

  lemma {:induction false} ReplicatePrefixOk(fs: FsMap, src: string, dests: seq<string>)
    requires |dests| > 0 && Replicable(fs, src, dests)
    ensures Replicable(fs, src, dests[..|dests| - 1])
  {
    var ds := dests[..|dests| - 1];
    if |ds| > 0 {
      forall d | d in ds && d in fs ensures fs[d].Directory? == fs[src].Directory? {
        assert d in dests;
      }
    }
  }

  /** `Copied` grows one destination at a time. */
  lemma CopiedSnoc(fs: FsMap, src: string, ds: seq<string>, d: string)
    requires src in fs && src !in ds && src != d
    ensures var m := Copied(fs, src, ds);
            src in m && m[src] == fs[src] && (m - {d})[d := m[src]] == Copied(fs, src, ds + [d])
  {
    var m := Copied(fs, src, ds);
    var l := (m - {d})[d := m[src]];
    var c := Copied(fs, src, ds + [d]);
    assert l.Keys == c.Keys;
    forall p | p in l ensures l[p] == c[p] {
      if p in ds + [d] {
        assert p == d || p in ds;
      }
    }
  }

  /** On replicable destinations the loop succeeds, leaving every destination
      a copy of the source and every other path as it was. */
  lemma {:induction false} ReplicateSucceeds(fs: FsMap, src: string, dests: seq<string>)
    requires Replicable(fs, src, dests)
    ensures Replicate(fs, src, dests).failure.None?
    ensures |dests| > 0 ==> Replicate(fs, src, dests).fs == Copied(fs, src, dests)
    decreases |dests|
  {
    if |dests| > 0 {
      var ds := dests[..|dests| - 1];
      var d := dests[|dests| - 1];
      assert dests == ds + [d];
      ReplicatePrefixOk(fs, src, dests);
      ReplicateSucceeds(fs, src, ds);
      var m := Replicate(fs, src, ds).fs;
      if |ds| == 0 {
        assert m == fs;
        assert Copied(fs, src, ds) == fs;
      }
      CopiedSnoc(fs, src, ds, d);
      assert m == Copied(fs, src, ds);
      assert d in m && m[d].Directory? != m[src].Directory? ==> d in fs && d !in ds;
    }
  }

  /** Replicable destinations followed by one that is not: the pass over that
      last destination raises, whatever the earlier passes left elsewhere. */
  lemma LastStepFails(fs: FsMap, m: FsMap, src: string, ds: seq<string>, d: string)
    requires Replicable(fs, src, ds) && !Replicable(fs, src, ds + [d])
    requires ChangesOnly(fs, m, ds)
    ensures CopyStep(m, src, d).failure.Some?
  {
    assert src !in ds && "" !in ds;
    if d == "" {
    } else if src == d || (|ds| == 0 && !PathExists(fs, src)) {
      assert !PathExists(m - {d}, src);
    } else {
      assert PathExists(fs, src) && src !in ds + [d] && "" !in ds + [d];
      var bad :| bad in ds + [d] && bad in fs && fs[bad].Directory? != fs[src].Directory?;
      assert bad !in ds;
      assert bad == d && m[d] == fs[d] && m[src] == fs[src];
    }
  }

  /** On any other destinations the loop raises. */
  lemma {:induction false} ReplicateFails(fs: FsMap, src: string, dests: seq<string>)
    requires !Replicable(fs, src, dests)
    ensures Replicate(fs, src, dests).failure.Some?
    decreases |dests|
  {
    var ds := dests[..|dests| - 1];
    var d := dests[|dests| - 1];
    assert dests == ds + [d];
    if !Replicable(fs, src, ds) {
      ReplicateFails(fs, src, ds);
    } else {
      ReplicateSucceeds(fs, src, ds);
      ReplicateFrame(fs, src, ds);
      LastStepFails(fs, Replicate(fs, src, ds).fs, src, ds, d);
    }
  }

  /** The loop succeeds exactly when the destinations are replicable, and then
      every destination holds a copy of the source. */
  lemma ReplicateSpec(fs: FsMap, src: string, dests: seq<string>)
    ensures Replicate(fs, src, dests).failure.None? <==> Replicable(fs, src, dests)
    ensures Replicable(fs, src, dests) && |dests| > 0 ==>
              Replicate(fs, src, dests).fs == Copied(fs, src, dests)
  {
    if Replicable(fs, src, dests) {
      ReplicateSucceeds(fs, src, dests);
    } else {
      ReplicateFails(fs, src, dests);
    }
  }

  /** Whatever happens, no path other than a destination is touched. */
  lemma {:induction false} ReplicateFrame(fs: FsMap, src: string, dests: seq<string>)
    ensures ChangesOnly(fs, Replicate(fs, src, dests).fs, dests)
    decreases |dests|
  {
    if |dests| > 0 {
      var ds := dests[..|dests| - 1];
      ReplicateFrame(fs, src, ds);
      forall p | p !in dests ensures p !in ds {
        assert dests == ds + [dests[|dests| - 1]];
      }
    }
  }

  /** Running the step again on the filesystem it produced changes nothing. */
  lemma ReplicateIdempotent(fs: FsMap, src: string, dests: seq<string>)
    requires Replicable(fs, src, dests)
    ensures var fs' := Replicate(fs, src, dests).fs;
            Replicate(fs', src, dests) == Step(fs', None)
  {
    ReplicateSpec(fs, src, dests);
    var fs' := Replicate(fs, src, dests).fs;
    if |dests| > 0 {
      assert fs' == Copied(fs, src, dests);
      assert fs'[src] == fs[src];
      assert Replicable(fs', src, dests);
      ReplicateSpec(fs', src, dests);
      assert Copied(fs', src, dests) == fs';
    }
  }

  // ---------------------------------------------------------------------
  // The filesystem
  // ---------------------------------------------------------------------

  /** The filesystem the step runs on, changed call by call. */
  class FileSystem {
    var entries: FsMap

    constructor (entries: FsMap)
      ensures this.entries == entries
    {
      this.entries := entries;
    }

    /** `os.path.isdir` */
    predicate IsDir(p: string)
      reads this
    {
      PathIsDir(entries, p)
    }

    /** `os.path.exists` */
    predicate Exists(p: string)
      reads this
    {
      PathExists(entries, p)
    }

    /** `delete_directory`: `shutil.rmtree` with a missing path ignored; a
        regular file raises. */
    method DeleteDirectory(p: string) returns (failure: Option<PyError>)
      modifies this
      ensures failure.Some? <==> p in old(entries) && !old(entries)[p].Directory?
      ensures failure.Some? ==> failure == Some(OSError(p)) && entries == old(entries)
      ensures failure.None? ==> entries == old(entries) - {p}
    {
      if p in entries && !entries[p].Directory? {
        return Some(OSError(p));
      }
      entries := entries - {p};
      failure := None;
    }

    /** `os.remove`: a missing path or a directory raises. */
    method Remove(p: string) returns (failure: Option<PyError>)
      modifies this
      ensures failure.Some? <==> p !in old(entries) || old(entries)[p].Directory?
      ensures failure.Some? ==> failure == Some(OSError(p)) && entries == old(entries)
      ensures failure.None? ==> entries == old(entries) - {p}
    {
      if p !in entries || entries[p].Directory? {
        return Some(OSError(p));
      }
      entries := entries - {p};
      failure := None;
    }

    /** `shutil.copytree`: the source must be a directory, and the target must
        not exist and must be creatable (not the empty path). */
    method CopyTree(src: string, dst: string) returns (failure: Option<PyError>)
      modifies this
      ensures failure.None? <==> PathIsDir(old(entries), src) && dst != "" && dst !in old(entries)
      ensures failure.Some? ==> entries == old(entries)
      ensures failure.Some? && PathIsDir(old(entries), src) ==> failure == Some(OSError(dst))
      ensures failure.Some? && !PathIsDir(old(entries), src) ==> failure == Some(OSError(src))
      ensures failure.None? ==> entries == old(entries)[dst := old(entries)[src]]
    {
      if !IsDir(src) {
        return Some(OSError(src));
      }
      if dst == "" || dst in entries {
        return Some(OSError(dst));
      }
      entries := entries[dst := entries[src]];
      failure := None;
    }

    /** `shutil.copyfile` (Python 2): an existing source that is the target
        itself raises `shutil.Error`; then `open(src, 'rb')` raises `IOError`
        for a missing source or a directory, and `open(dst, 'wb')` for a
        directory target or the empty path. */
    method CopyFile(src: string, dst: string) returns (failure: Option<PyError>)
      modifies this
      ensures failure.None? <==>
                PathExists(old(entries), src) && !old(entries)[src].Directory? && src != dst &&
                dst != "" && !PathIsDir(old(entries), dst)
      ensures failure.Some? ==> entries == old(entries)
      ensures src == dst && PathExists(old(entries), src) ==> failure == Some(ShutilError(src, dst))
      ensures (!(src == dst && PathExists(old(entries), src)) &&
               (!PathExists(old(entries), src) || old(entries)[src].Directory?)) ==>
                failure == Some(IOError(src))
      ensures (PathExists(old(entries), src) && !old(entries)[src].Directory? && src != dst &&
               (dst == "" || PathIsDir(old(entries), dst))) ==> failure == Some(IOError(dst))
      ensures failure.None? ==> entries == old(entries)[dst := old(entries)[src]]
    {
      if src == dst && Exists(src) {
        return Some(ShutilError(src, dst));
      }
      if !Exists(src) || entries[src].Directory? {
        return Some(IOError(src));
      }
      if dst == "" || IsDir(dst) {
        return Some(IOError(dst));
      }
      entries := entries[dst := entries[src]];
      failure := None;
    }

    /** One pass of the destination loop, made of the calls above. */
    method CopyOver(src: string, dest: string) returns (failure: Option<PyError>)
      modifies this
      ensures Step(entries, failure) == CopyStep(old(entries), src, dest)
    {
      if IsDir(src) {
        if Exists(dest) {
          failure := DeleteDirectory(dest);
          if failure.Some? {
            return;
          }
        }
        failure := CopyTree(src, dest);
      } else {
        if Exists(dest) {
          failure := Remove(dest);
          if failure.Some? {
            return;
          }
        }
        failure := CopyFile(src, dest);
      }
    }
  }

  // ---------------------------------------------------------------------
  // Parameters
  // ---------------------------------------------------------------------

  /** The destinations a string `output_files` names, as the step reads them:
      the mapfile is looked up under the key `files`, and every failure of
      that lookup, a missing key included, falls back to parsing
      `output_files` itself as a list. */
  function DestinationsAsWritten(kwargs: Kwargs, outputFiles: string, load: Loader): seq<string> {
    if "files" in kwargs && kwargs["files"].PyStr? && load(kwargs["files"].s).Loaded? then
      StripEach(FlattenLists(FilesOf(load(kwargs["files"].s).records)))
    else
      ParseListString(outputFiles)
  }

  /** The destinations as documented: the lists held by the mapfile named by
      `output_files` when it loads, else `output_files` parsed as a list. */
  function Destinations(outputFiles: string, load: Loader): seq<string> {
    if load(outputFiles).Loaded? then StripEach(FlattenLists(FilesOf(load(outputFiles).records)))
    else ParseListString(outputFiles)
  }

  /** As written, a mapfile passed as `output_files` is never read: without a
      `files` parameter the destinations are the parse of the path itself. */
  lemma AsWrittenIgnoresMapfile(kwargs: Kwargs, outputFiles: string, load: Loader)
    requires "files" !in kwargs
    ensures DestinationsAsWritten(kwargs, outputFiles, load) == ParseListString(outputFiles)
    ensures |DestinationsAsWritten(kwargs, outputFiles, load)| == multiset(Strip(outputFiles, Brackets))[','] + 1
  {
    ParseListEntries(outputFiles);
  }

  /** A mapfile `m` listing one plain path `x`, passed as `output_files`: as
      written the one destination is the mapfile's own path `m`, which the
      step then overwrites; as documented it is `x`. */
  lemma AsWrittenCopiesOntoMapfile(m: string, x: string, load: Loader)
    requires PlainEntry(m) && m != [] && m[0] !in Whitespace && m[|m| - 1] !in Whitespace
    requires PlainEntry(x) && x != [] && x[0] !in Whitespace && x[|x| - 1] !in Whitespace
    requires load(m) == Loaded([Product("localhost", x, false)])
    ensures DestinationsAsWritten(map[], m, load) == [m]
    ensures Destinations(m, load) == [x]
  {
    ParsePlain(m);
    assert FilesOf(load(m).records) == [x];
    FlattenPlain([x]);
    StripKeeps(x, Whitespace);
  }

  /** A mapfile of plain paths passed as `output_files` names exactly those
      paths; any other string is parsed as a list. */
  lemma DestinationsFromMapfile(outputFiles: string, load: Loader)
    ensures load(outputFiles).Loaded? &&
            (forall k :: 0 <= k < |load(outputFiles).records| ==> PlainEntry(load(outputFiles).records[k].file)) ==>
              Destinations(outputFiles, load) == StripEach(FilesOf(load(outputFiles).records))
    ensures !load(outputFiles).Loaded? ==> Destinations(outputFiles, load) == ParseListString(outputFiles)
  {
    var outcome := load(outputFiles);
    if outcome.Loaded? && forall k :: 0 <= k < |outcome.records| ==> PlainEntry(outcome.records[k].file) {
      var files := FilesOf(outcome.records);
      assert forall k :: 0 <= k < |files| ==> PlainEntry(files[k]);
      FlattenPlain(files);
    }
  }

  /** The source: `input_file` when given, else the file of the first record of
      `input_mapfile`. */
  function Source(kwargs: Kwargs, load: Loader): (r: Result<PyValue, PyError>)
    ensures "input_file" in kwargs ==> r == Ok(kwargs["input_file"])
    ensures "input_file" !in kwargs && "input_mapfile" !in kwargs ==> r == Err(KeyError("input_mapfile"))
    ensures "input_file" !in kwargs && "input_mapfile" in kwargs ==>
              match LoadMapfile(kwargs["input_mapfile"], load)
              case Ok(records) =>
                if |records| > 0 then r == Ok(PyStr(records[0].file)) else r == Err(IndexError)
              case Err(e) => r == Err(e)
  {
    if "input_file" in kwargs then Ok(kwargs["input_file"])
    else if "input_mapfile" !in kwargs then Err(KeyError("input_mapfile"))
    else
      var records :- LoadMapfile(kwargs["input_mapfile"], load);
      if |records| > 0 then Ok(PyStr(records[0].file)) else Err(IndexError)
  }

  /** A given `input_file` is the source whatever `input_mapfile` is and
      whatever the mapfiles hold: the mapfile is then never opened. */
  lemma SourcePrefersInputFile(kwargs: Kwargs, load: Loader, other: Loader, mapfile: PyValue)
    requires "input_file" in kwargs
    ensures Source(kwargs, load) == Ok(kwargs["input_file"])
    ensures Source(kwargs["input_mapfile" := mapfile], other) == Source(kwargs, load)
  {
  }

  /** A source read from `input_mapfile` is the file of the first record of a
      mapfile that loads, and depends on nothing else the mapfile holds. */
  lemma SourceFromMapfile(kwargs: Kwargs, load: Loader, other: Loader)
    requires "input_file" !in kwargs && Source(kwargs, load).Ok?
    ensures "input_mapfile" in kwargs && kwargs["input_mapfile"].PyStr?
    ensures var m := kwargs["input_mapfile"].s;
            && load(m).Loaded? && |load(m).records| > 0
            && Source(kwargs, load) == Ok(PyStr(FilesOf(load(m).records)[0]))
    ensures var m := kwargs["input_mapfile"].s;
            other(m).Loaded? && |other(m).records| > 0 && other(m).records[0].file == load(m).records[0].file ==>
              Source(kwargs, other) == Source(kwargs, load)
  {
  }

  /** The step's return value with the records it saves. */
  datatype Outcome = Outcome(mapfile: string, saved: seq<DataProduct>)

  /** Everything the step reads before its first filesystem call, once all of
      it was found. */
  datatype Plan = Plan(hosts: seq<string>, dests: seq<string>, source: PyValue, dir: PyValue, filename: PyValue)

  /** Lines 37-62 (with the destinations read as documented): the parameters
      and the source, or the exception raised on the way. */
  function Prepare(kwargs: Kwargs, load: Loader): (r: Result<Plan, PyError>)
    ensures "output_files" !in kwargs ==> r == Err(KeyError("output_files"))
    ensures r.Ok? ==>
      && "output_files" in kwargs && kwargs["output_files"].PyStr?
      && "hosts" in kwargs && kwargs["hosts"].PyStr?
      && "mapfile_dir" in kwargs && "filename" in kwargs
      && r.value.dests == Destinations(kwargs["output_files"].s, load)
      && r.value.hosts == ParseListString(kwargs["hosts"].s)
      && Source(kwargs, load) == Ok(r.value.source)
      && r.value.dir == kwargs["mapfile_dir"] && r.value.filename == kwargs["filename"]
  {
    if "output_files" !in kwargs then Err(KeyError("output_files"))
    else if "hosts" !in kwargs then Err(KeyError("hosts"))
    else if "mapfile_dir" !in kwargs then Err(KeyError("mapfile_dir"))
    else if "filename" !in kwargs then Err(KeyError("filename"))
    else if !kwargs["output_files"].PyStr? then Err(UnboundLocalError("files"))
    else if !kwargs["hosts"].PyStr? then Err(UnboundLocalError("hosts"))
    else
      match Source(kwargs, load)
      case Err(e) => Err(e)
      case Ok(source) =>
        Ok(Plan(ParseListString(kwargs["hosts"].s), Destinations(kwargs["output_files"].s, load),
                source, kwargs["mapfile_dir"], kwargs["filename"]))
  }

  /** The filesystem a prepared step leaves: untouched when there is nothing to
      copy or the source is not a path, else what the loop reaches. */
  ghost function PlanFs(fs: FsMap, p: Plan): FsMap {
    if |p.dests| == 0 || !p.source.PyStr? then fs
    else Replicate(fs, p.source.s, p.dests).fs
  }

  /** A prepared step completes. */
  ghost predicate PlanCompletes(fs: FsMap, p: Plan) {
    && (|p.dests| == 0 || (p.source.PyStr? && Replicable(fs, p.source.s, p.dests)))
    && JoinValues(p.dir, p.filename).Ok?
  }

  /** The filesystem the step leaves: untouched when it fails before the loop,
      else what the loop reaches. */
  ghost function FinalFs(fs: FsMap, kwargs: Kwargs, load: Loader): FsMap {
    var p := Prepare(kwargs, load);
    if p.Err? then fs else PlanFs(fs, p.value)
  }

  /** The step completes. */
  ghost predicate Completes(fs: FsMap, kwargs: Kwargs, load: Loader) {
    var p := Prepare(kwargs, load);
    p.Ok? && PlanCompletes(fs, p.value)
  }

  /** The destination loop (lines 64-75): copies `source` to each destination
      in turn and appends its record, until a filesystem call raises. */
  method CopyToAll(fs: FileSystem, source: string, hosts: seq<string>, dests: seq<string>)
    returns (saved: seq<DataProduct>, failure: Option<PyError>)
    requires |hosts| >= |dests|
    modifies fs
    ensures Step(fs.entries, failure) == Replicate(old(fs.entries), source, dests)
    ensures failure.None? ==> |saved| == |dests|
    ensures failure.None? ==> forall k :: 0 <= k < |dests| ==> saved[k] == Product(hosts[k], dests[k], false)
  {
    ghost var fs0 := fs.entries;
    var pairs := Zip(hosts, dests);
    saved := [];
    var i := 0;
    while i < |pairs|
      invariant 0 <= i <= |pairs| == |dests|
      invariant |saved| == i
      invariant forall k :: 0 <= k < i ==> saved[k] == Product(hosts[k], dests[k], false)
      invariant Replicate(fs0, source, dests[..i]) == Step(fs.entries, None)
    {
      var (h, f) := pairs[i];
      assert dests[..i + 1][..i] == dests[..i];
      failure := fs.CopyOver(source, f);
      if failure.Some? {
        ReplicateStops(fs0, source, dests, i + 1);
        return;
      }
      saved := saved + [Product(h, f, false)];
      i := i + 1;
    }
    assert dests[..i] == dests;
    failure := None;
  }

  /** Lines 55-81, once the parameters are read: cycles the hosts, copies the
      source to every destination and saves one record per destination at
      `mapfile_dir/filename`. */
  method Execute(p: Plan, fs: FileSystem) returns (r: Result<Outcome, PyError>)
    requires |p.hosts| > 0
    modifies fs
    ensures fs.entries == PlanFs(old(fs.entries), p)
    ensures r.Ok? <==> PlanCompletes(old(fs.entries), p)
    ensures r.Ok? ==>
      && r.value.mapfile == JoinValues(p.dir, p.filename).value
      && |r.value.saved| == |p.dests|
      && (forall i :: 0 <= i < |p.dests| ==>
            r.value.saved[i] == Product(p.hosts[i % |p.hosts|], p.dests[i], false))
      && (|p.dests| > 0 ==> fs.entries == Copied(old(fs.entries), p.source.s, p.dests))
  {
    ghost var fs0 := fs.entries;
    // a parsed host list is never empty, so the cycling cannot raise `IndexError`
    var extended := ExtendHosts(p.hosts, |p.dests|);
    var saved: seq<DataProduct> := [];
    var failure: Option<PyError> := None;
    if |p.dests| > 0 {
      if !p.source.PyStr? {
        // os.path.isdir of a non-string
        failure := Some(TypeError);
      } else {
        saved, failure := CopyToAll(fs, p.source.s, extended.value, p.dests);
        ReplicateSpec(fs0, p.source.s, p.dests);
      }
    }
    if failure.Some? {
      r := Err(failure.value);
    } else {
      var joined := JoinValues(p.dir, p.filename);
      if joined.Err? {
        r := Err(joined.error);
      } else {
        r := Ok(Outcome(joined.value, saved));
      }
    }
  }

  /** `plugin_main`: copies the source to every destination in order and
      saves one record per destination, on its cyclically chosen host and
      never skipped, at `mapfile_dir/filename`. */
  method PluginMain(kwargs: Kwargs, load: Loader, fs: FileSystem) returns (r: Result<Outcome, PyError>)
    modifies fs
    ensures fs.entries == FinalFs(old(fs.entries), kwargs, load)
    ensures r.Ok? <==> Completes(old(fs.entries), kwargs, load)
    ensures r.Ok? ==>
      var p := Prepare(kwargs, load).value;
      && r.value.mapfile == JoinValues(p.dir, p.filename).value
      && |r.value.saved| == |p.dests|
      && (forall i :: 0 <= i < |p.dests| ==>
            r.value.saved[i] == Product(p.hosts[i % |p.hosts|], p.dests[i], false))
      && (|p.dests| > 0 ==> fs.entries == Copied(old(fs.entries), p.source.s, p.dests))
  {
    var plan := Prepare(kwargs, load);
    if plan.Err? {
      r := Err(plan.error);
    } else {
      r := Execute(plan.value, fs);
    }
  }

  /** A loop that failed on a prefix fails on the whole list, leaving the state
      the prefix left. */
  lemma {:induction false} ReplicateStops(fs: FsMap, src: string, dests: seq<string>, n: nat)
    requires 0 < n <= |dests|
    requires Replicate(fs, src, dests[..n]).failure.Some?
    ensures Replicate(fs, src, dests) == Replicate(fs, src, dests[..n])
    decreases |dests| - n
  {
    if n < |dests| {
      assert dests[..n + 1][..n] == dests[..n];
      ReplicateStops(fs, src, dests, n + 1);
    } else {
      assert dests[..n] == dests;
    }
  }
}

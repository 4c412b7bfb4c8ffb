/** The `addListMapfile` pipeline step: writes a mapfile with one record per
    file of a list, on hosts taken cyclically from a host list, optionally
    marking files that do not exist or are not readable tables as skipped.

    `os.path.exists` and opening a Measurement Set with `casacore.tables.table`
    are oracles `pathExists` and `opens` (`opens(f)` is false when the call
    raises `RuntimeError`). The saved mapfile is returned with its path. */
module AddListMapfile {
  import opened Python
  import opened PyStrings
  import opened Mapfiles

  /** `string2bool` of this step: only strings convert, `TRUE`/`1` and
      `FALSE`/`0` in any case; everything else raises `ValueError`. */
  function String2Bool(v: PyValue): (r: Result<bool, PyError>)
    ensures r == Ok(true) <==> v.PyStr? && (SpellsIgnoringCase(v.s, "TRUE") || v.s == "1")
    ensures r == Ok(false) <==> v.PyStr? && (SpellsIgnoringCase(v.s, "FALSE") || v.s == "0")
    ensures r.Err? ==> r.error == ValueError
  {
    match v
    case PyStr(s) =>
      UpperMatches(s, "TRUE");
      UpperMatches(s, "FALSE");
      if Upper(s) == "TRUE" || s == "1" then Ok(true)
      else if Upper(s) == "FALSE" || s == "0" then Ok(false)
      else Err(ValueError)
    case _ => Err(ValueError)
  }

  /** `f.lower().endswith('.ms')` */
  predicate IsMsPath(f: string) {
    EndsWith(Lower(f), ".ms")
  }

  /** A path counts as a Measurement Set when it ends in a dot, an `m` and an
      `s`, each letter in either case. */
  lemma MsSuffix(f: string)
    ensures IsMsPath(f) <==>
      |f| >= 3 && f[|f| - 3] == '.' && f[|f| - 2] in "mM" && f[|f| - 1] in "sS"
  {
    var l := Lower(f);
    if |f| >= 3 {
      assert l[|l| - 3..] == [l[|l| - 3], l[|l| - 2], l[|l| - 1]];
      assert l[|l| - 3] == LowerChar(f[|f| - 3]);
      assert l[|l| - 2] == LowerChar(f[|f| - 2]);
      assert l[|l| - 1] == LowerChar(f[|f| - 1]);
    }
  }

  /** The skip flag a record gets. */
  function SkipFlag(f: string, check: bool, pathExists: string -> bool, opens: string -> bool): bool {
    if !check then false
    else if !pathExists(f) then true
    else if IsMsPath(f) then !opens(f)
    else false
  }

  /** The files a string-valued `files` parameter names: the lists held by the
      mapfile at that path when it loads, the string itself parsed as a list
      when the path cannot be opened; a mapfile that fails otherwise raises. */
  function FilesFromString(s: string, load: Loader): Result<seq<string>, PyError> {
    match load(s)
    case Loaded(records) => Ok(StripEach(FlattenLists(FilesOf(records))))
    case NotFound => Ok(ParseListString(s))
    case Malformed => Err(MapfileFormatError)
  }

  /** A loadable mapfile of plain paths names exactly those paths, stripped. */
  lemma PlainMapfileFiles(s: string, load: Loader)
    requires load(s).Loaded?
    requires forall k :: 0 <= k < |load(s).records| ==> PlainEntry(load(s).records[k].file)
    ensures FilesFromString(s, load) == Ok(StripEach(FilesOf(load(s).records)))
  {
    FlattenPlain(FilesOf(load(s).records));
  }

  /** The `check_files_exist` option; off when absent. */
  function CheckFlag(kwargs: Kwargs): Result<bool, PyError> {
    if "check_files_exist" in kwargs then String2Bool(kwargs["check_files_exist"]) else Ok(false)
  }

  /** The parameters under which the step completes. */
  ghost predicate Accepted(kwargs: Kwargs, load: Loader) {
    && "files" in kwargs && "hosts" in kwargs && "mapfile_dir" in kwargs && "filename" in kwargs
    && kwargs["files"].PyStr? && kwargs["hosts"].PyStr?
    && JoinValues(kwargs["mapfile_dir"], kwargs["filename"]).Ok?
    && FilesFromString(kwargs["files"].s, load).Ok?
    && CheckFlag(kwargs).Ok?
  }

  /** The step's return value, `{'mapfile': path}`, with the records it saves there. */
  datatype Outcome = Outcome(mapfile: string, saved: seq<DataProduct>)

  /** The record loop: one record per `(host, file)` pair of `zip(hosts, files)`,
      in order, with the skip flag of its file. */
  method BuildRecords(hosts: seq<string>, files: seq<string>, check: bool,
                      pathExists: string -> bool, opens: string -> bool)
    returns (records: seq<DataProduct>)
    ensures |records| == |Zip(hosts, files)|
    ensures forall i :: 0 <= i < |records| ==>
              records[i] == Product(hosts[i], files[i], SkipFlag(files[i], check, pathExists, opens))
  {
    var pairs := Zip(hosts, files);
    records := [];
    var i := 0;
    while i < |pairs|
      invariant 0 <= i <= |pairs|
      invariant |records| == i
      invariant forall k :: 0 <= k < i ==>
                  records[k] == Product(hosts[k], files[k], SkipFlag(files[k], check, pathExists, opens))
    {
      var (h, f) := pairs[i];
      var skip;
      if check {
        skip := !pathExists(f);
        if !skip && IsMsPath(f) {
          skip := !opens(f);
        }
      } else {
        skip := false;
      }
      records := records + [Product(h, f, skip)];
      i := i + 1;
    }
  }

  /** Lines 55-80, once the files, hosts and option are read: extends the
      hosts cyclically, builds one record per file and saves them at
      `mapfile_dir/filename`. */
  method Assemble(files: seq<string>, hosts: seq<string>, check: bool, mapfileDir: PyValue, filename: PyValue,
                  pathExists: string -> bool, opens: string -> bool)
    returns (r: Result<Outcome, PyError>)
    requires |hosts| > 0
    ensures r.Ok? <==> JoinValues(mapfileDir, filename).Ok?
    ensures r.Err? ==> r.error == JoinValues(mapfileDir, filename).error
    ensures r.Ok? ==>
      && r.value.mapfile == JoinValues(mapfileDir, filename).value
      && |r.value.saved| == |files|
      && forall i :: 0 <= i < |files| ==>
           r.value.saved[i] == Product(hosts[i % |hosts|], files[i], SkipFlag(files[i], check, pathExists, opens))
  {
    // a parsed host list is never empty, so the cycling cannot raise `IndexError`
    var extended := ExtendHosts(hosts, |files|);
    var records := BuildRecords(extended.value, files, check, pathExists, opens);
    var joined := JoinValues(mapfileDir, filename);
    if joined.Err? {
      r := Err(joined.error);
    } else {
      r := Ok(Outcome(joined.value, records));
    }
  }

  /** `plugin_main`: parses the files and hosts, extends the hosts cyclically,
      builds one record per file and saves them at `mapfile_dir/filename`. */
  method PluginMain(kwargs: Kwargs, load: Loader, pathExists: string -> bool, opens: string -> bool)
    returns (r: Result<Outcome, PyError>)
    ensures "files" !in kwargs ==> r == Err(KeyError("files"))
    ensures "files" in kwargs && kwargs["files"].PyStr? && load(kwargs["files"].s).Malformed? ==>
              r == Err(MapfileFormatError)
    ensures r.Ok? <==> Accepted(kwargs, load)
    ensures r.Ok? ==>
      var files := FilesFromString(kwargs["files"].s, load).value;
      var hosts := ParseListString(kwargs["hosts"].s);
      && r.value.mapfile == JoinValues(kwargs["mapfile_dir"], kwargs["filename"]).value
      && |r.value.saved| == |files|
      && forall i :: 0 <= i < |files| ==>
           r.value.saved[i] == Product(hosts[i % |hosts|], files[i],
                                       SkipFlag(files[i], CheckFlag(kwargs).value, pathExists, opens))
  {
    var filesArg :- Get(kwargs, "files");
    var files: Option<seq<string>> := None;
    if filesArg.PyStr? {
      match load(filesArg.s)
      case Loaded(records) =>
        var pieces := ConcatFileLists(FilesOf(records));
        files := Some(StripEach(pieces));
      case NotFound =>
        files := Some(ParseListString(filesArg.s));
      case Malformed =>
        return Err(MapfileFormatError);
    }
    assert files.Some? ==> Ok(files.value) == FilesFromString(filesArg.s, load);
    var hostsArg :- Get(kwargs, "hosts");
    var hosts: Option<seq<string>> := None;
    if hostsArg.PyStr? {
      hosts := Some(ParseListString(hostsArg.s));
    }
    var mapfileDir :- Get(kwargs, "mapfile_dir");
    var filename :- Get(kwargs, "filename");
    var check := false;
    if "check_files_exist" in kwargs {
      check :- String2Bool(kwargs["check_files_exist"]);
    }
    assert CheckFlag(kwargs) == Ok(check);
    // `len(files) - len(hosts)` reads both locals
    if files.None? {
      return Err(UnboundLocalError("files"));
    }
    if hosts.None? {
      return Err(UnboundLocalError("hosts"));
    }
    r := Assemble(files.value, hosts.value, check, mapfileDir, filename, pathExists, opens);
  }
}

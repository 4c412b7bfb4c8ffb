# Prefactor pipeline glue, modelled in Dafny

This project models the small Python programs that LOFAR's prefactor
calibration pipeline uses around its main processing. They are:

- the generic pipeline plugins `addListMapfile`, `copyFiles` and
  `identifyBadAntennas`;
- the scripts `check_unflagged_fraction.py`, `plot_uvcov.py` and
  `createRMh5parm.py`.

Each plugin or script does some bookkeeping, and the model covers that
bookkeeping:

- parsing parameter strings such as `'[a, b]'` into lists;
- cycling a host list over a file list;
- building *mapfiles*, which are lists of `(host, file, skip)` data products;
- copying one source over a set of destinations;
- intersecting per-file antenna reports into a baseline filter;
- gating Measurement Sets on their unflagged fraction;
- validating the arguments of the uv-coverage plotter, and choosing the
  antennas, baselines and time sampling it plots;
- choosing the Measurement Set and padding the time grid before IONEX
  files are fetched, and the fetch and fallback policy, day by day.

Files:

| file | module | models |
|---|---|---|
| `python.dfy` | `Python` | Python values, `Result`/`Option` and the exceptions the code raises |
| `pystrings.dfy` | `PyStrings` | `str.strip`/`lstrip`/`rstrip`, `split`, `join`, `upper`/`lower`, `endswith`, `replace`, `int()` and `str()` |
| `mapfiles.dfy` | `Mapfiles` | data products, mapfile loading as an oracle, the bracket-list parse, host cycling, `zip` and `os.path.join` |
| `add_list_mapfile.dfy` | `AddListMapfile` | `plugins/PipelineStep_addListMapfile.py` |
| `copy_files.dfy` | `CopyFiles` | `plugins/PipelineStep_copyFiles.py`, over a filesystem class |
| `identify_bad_antennas.dfy` | `IdentifyBadAntennas` | `plugins/PipelineStep_identifyBadAntennas.py` |
| `check_unflagged_fraction.dfy` | `CheckUnflaggedFraction` | `scripts/check_unflagged_fraction.py` |
| `plot_uvcov.dfy` | `PlotUvcov` | `scripts/plot_uvcov.py`: argument checks and per-MS selection |
| `create_rm_h5parm.dfy` | `CreateRMh5parm` | `scripts/createRMh5parm.py`: control logic before RMextract |

Anything outside the program becomes a parameter of the model:

- `DataMap.load` is a `Loader` that gives the records, `NotFound` (an
  `IOError`) or `Malformed`.
- `os.path.exists` and opening a table with casacore become predicates.
- The output of DPPP and of `taql` are functions of the Measurement Set
  name.
- An IONEX download is a predicate on the request.
- What `plot_uvcov.py` reads from a Measurement Set (its time-slot count,
  antenna-table size and baselines) is given as a value.

The plugins and `plot_uvcov.py` run under Python 2, and the model follows
Python 2 semantics: `open` raises `TypeError` on a non-string path,
`os.path.join` raises `AttributeError` on a non-string argument,
`shutil.copyfile` raises `IOError` from `open` and `shutil.Error` for a file
copied onto itself, and `int()` accepts whitespace between the sign and the
digits. `createRMh5parm.py` runs under Python 3; the operations the model
takes from it (`str.lstrip`, `str.rstrip`, `str.replace`, `str.split`,
substring tests, list indexing and `[::-1]`) behave there as they do in
Python 2.

Paths are compared as plain strings: `a`, `./a`, an absolute spelling of
the same file and a symbolic link to it are different paths, so aliasing
between the source and a destination is seen only when the two strings are
equal. The empty path never exists and can never be created, as for
`os.path.exists` and `open`.

## Model

| member | source | states |
|---|---|---|
| Mapfiles.BracketListPieces | plugins/PipelineStep_addListMapfile.py:43 | `s.strip('[]').split(',')` has one piece per comma plus one, no piece holds a comma, and the pieces joined by `,` give the stripped text back |
| Mapfiles.ParseListEntries | plugins/PipelineStep_addListMapfile.py:42-44 | the string parse of `files` has a comma count plus one entries; entry i is piece i whitespace-stripped; no entry holds a comma |
| Mapfiles.ConcatFileLists | plugins/PipelineStep_addListMapfile.py:38-40 | the `files +=` loop yields the in-order concatenation of each mapfile entry's bracket-stripped comma split |
| Mapfiles.FlattenAppend | plugins/PipelineStep_addListMapfile.py:39-40 | flattening distributes over concatenating entry lists: each entry contributes its own pieces, in entry order |
| Mapfiles.FlattenPlain | plugins/PipelineStep_addListMapfile.py:36-40 | a mapfile whose entries are single plain paths flattens to exactly those paths |
| Mapfiles.ExtendHosts | plugins/PipelineStep_addListMapfile.py:56-57 | the host loop raises `IndexError` iff the host list is empty and files remain; otherwise the result has max(hosts, files) entries, keeps the original hosts as a prefix, and entry i is `hosts[i mod n]` |
| Mapfiles.Zip | plugins/PipelineStep_addListMapfile.py:60 | `zip` pairs by position and is as long as the shorter list, so surplus hosts are dropped |
| Mapfiles.PathJoin | plugins/PipelineStep_addListMapfile.py:77 | `os.path.join` ends with the name; an absolute name replaces the directory; otherwise the directory is a prefix, followed by the name; a `/` is inserted between them only when the directory is non-empty and does not already end with one, so no separator is doubled |
| Mapfiles.JoinValues | plugins/PipelineStep_addListMapfile.py:77 | the join succeeds iff the name is a string and either the directory is a string or the name is absolute; every other case raises `AttributeError` |
| AddListMapfile.String2Bool | plugins/PipelineStep_addListMapfile.py:84-92 | `True` iff a string spelling TRUE in any case or `"1"`; `False` iff FALSE in any case or `"0"`; anything else, non-strings included, raises `ValueError` |
| AddListMapfile.MsSuffix | plugins/PipelineStep_addListMapfile.py:66 | `f.lower().endswith('.ms')` holds iff the path ends in `.`, `m`/`M`, `s`/`S` |
| AddListMapfile.PlainMapfileFiles | plugins/PipelineStep_addListMapfile.py:36-44 | a loadable mapfile of plain paths yields those paths, whitespace-stripped, in order |
| AddListMapfile.BuildRecords | plugins/PipelineStep_addListMapfile.py:59-75 | one record per `zip` pair, in order; record i holds host i, file i and that file's skip flag. The flag is false with the check off; true for a missing path; for an existing `.ms` path, true iff the table does not open; false otherwise |
| AddListMapfile.Assemble | plugins/PipelineStep_addListMapfile.py:55-80 | with a non-empty host list, the step fails iff `mapfile_dir/filename` cannot be joined, with that exception. Otherwise there is one record per file in file order, and record i is on host `hosts[i mod n]` with its file's skip flag |
| AddListMapfile.PluginMain | plugins/PipelineStep_addListMapfile.py:33-81 | a missing `files` raises `KeyError`; a malformed mapfile raises. The step completes iff all parameters are present and convertible. Then the mapfile path is `mapfile_dir/filename`, there is exactly one record per file in file order (duplicates kept), and record i is on host `hosts[i mod n]` with its file's skip flag |
| CopyFiles.FileSystem.DeleteDirectory | plugins/PipelineStep_copyFiles.py:69 | removes a directory tree; a missing path is ignored; a regular file raises and changes nothing |
| CopyFiles.FileSystem.Remove | plugins/PipelineStep_copyFiles.py:73 | removes a regular file; a missing path or a directory raises and changes nothing |
| CopyFiles.FileSystem.CopyTree | plugins/PipelineStep_copyFiles.py:70 | copies a directory to a path that must not exist and is not the empty path; otherwise raises `OSError` (on the source when it is not a directory, else on the target) and changes nothing |
| CopyFiles.FileSystem.CopyFile | plugins/PipelineStep_copyFiles.py:74 | copies a regular file onto a distinct, non-empty path that is not a directory; otherwise raises as Python 2 does and changes nothing: `shutil.Error` for an existing source that is the target, `IOError` on the source when it is missing, empty or a directory, `IOError` on a target that is a directory or the empty path |
| CopyFiles.FileSystem.CopyOver | plugins/PipelineStep_copyFiles.py:67-74 | one pass of the destination loop leaves exactly the state and exception of `CopyStep`: `OSError` on the destination when removing it fails, then `OSError` (directory source) or `IOError` (file source) on a source that is gone; the empty destination raises without changing anything |
| CopyFiles.ReplicateSucceeds | plugins/PipelineStep_copyFiles.py:64-75 | when the source exists, is not a destination, no destination is the empty path, and every existing destination is of its kind, the loop raises nothing and every destination holds a copy of the source |
| CopyFiles.ReplicateFails | plugins/PipelineStep_copyFiles.py:64-75 | on any other source and destinations, the loop raises |
| CopyFiles.ReplicateSpec | plugins/PipelineStep_copyFiles.py:64-75 | the loop completes iff the destinations are replicable, and then the filesystem is the old one with every destination a copy of the source |
| CopyFiles.ReplicateFrame | plugins/PipelineStep_copyFiles.py:64-75 | whatever happens, no path other than a destination changes |
| CopyFiles.ReplicateIdempotent | plugins/PipelineStep_copyFiles.py:64-75 | running the copy again on the filesystem it produced changes nothing |
| CopyFiles.ReplicateStops | plugins/PipelineStep_copyFiles.py:64-75 | once a prefix of the destinations raises, the later destinations are never touched |
| CopyFiles.AsWrittenIgnoresMapfile | plugins/PipelineStep_copyFiles.py:37-48 | as written, with no `files` parameter, a mapfile passed as `output_files` is never read: the destinations are the parse of its path |
| CopyFiles.AsWrittenCopiesOntoMapfile | plugins/PipelineStep_copyFiles.py:40 | for any plain paths `m` and `x` with no surrounding whitespace, where `m` is a mapfile listing `x` on localhost: as written the one destination is `m` itself; as documented it is `x` |
| CopyFiles.DestinationsFromMapfile | plugins/PipelineStep_copyFiles.py:37-48 | as documented, a mapfile of plain paths given as `output_files` names exactly those paths; anything unloadable is parsed as a list |
| CopyFiles.SourcePrefersInputFile | plugins/PipelineStep_copyFiles.py:58-59 | a given `input_file` is the source whatever `input_mapfile` is and whatever any mapfile holds, so the mapfile is never opened |
| CopyFiles.SourceFromMapfile | plugins/PipelineStep_copyFiles.py:60-62 | without `input_file`, a source that is found is the file of the first record of the mapfile named by a string `input_mapfile`, which loads and is non-empty; two mapfiles with the same first file give the same source |
| CopyFiles.Prepare | plugins/PipelineStep_copyFiles.py:37-62 | lines 37-62 with the destinations read as documented (the corrected reading of line 40, see Findings): a missing `output_files` raises `KeyError`; on success all four parameters are present, the destinations are `Destinations` of `output_files`, the hosts are their parse, and the source is `Source`'s |
| CopyFiles.CopyToAll | plugins/PipelineStep_copyFiles.py:64-75 | the loop leaves exactly the filesystem and exception of `Replicate` (Python 2 exception classes, as in `CopyStep`); on success there is one record per destination with host i, destination i and skip false |
| CopyFiles.Execute | plugins/PipelineStep_copyFiles.py:55-81 | given a prepared plan with a non-empty host list, the filesystem becomes `PlanFs` and the step completes iff `PlanCompletes`. Then the mapfile path is `mapfile_dir/filename`, there is one unskipped record per destination on host `hosts[i mod n]`, and every destination holds a copy of the source |
| CopyFiles.PluginMain | plugins/PipelineStep_copyFiles.py:37-81 | with the destinations read as documented (the corrected line 40, see Findings): the final filesystem is `FinalFs`. The step completes iff the parameters are usable and the destinations replicable. Then the mapfile path is `mapfile_dir/filename`, there is one unskipped record per destination on host `hosts[i mod n]`, and every destination holds a copy of the source |
| IdentifyBadAntennas.AntennaTokenShape | plugins/PipelineStep_identifyBadAntennas.py:8 | a token is the text after the line's last `(`, or the whole line if it has none, with trailing `)` and newlines removed; it holds no `(` |
| IdentifyBadAntennas.FlaggedAntennas | plugins/PipelineStep_identifyBadAntennas.py:6-9 | one token per `NOTE` line, in order |
| IdentifyBadAntennas.ActiveFiles | plugins/PipelineStep_identifyBadAntennas.py:32 | the selection is empty iff every record is skipped, and is at most as long as the mapfile; every selected file is an unskipped record's file |
| IdentifyBadAntennas.ActiveFilesAppend | plugins/PipelineStep_identifyBadAntennas.py:32 | selection distributes over concatenation, so it keeps mapfile order and duplicates |
| IdentifyBadAntennas.IntersectAllMembers | plugins/PipelineStep_identifyBadAntennas.py:39 | an antenna is in `set.intersection` iff it is in every set |
| IdentifyBadAntennas.CommonFlaggedMembers | plugins/PipelineStep_identifyBadAntennas.py:37-39 | an antenna is selected iff every examined file's report names it |
| IdentifyBadAntennas.ClausesCount | plugins/PipelineStep_identifyBadAntennas.py:41-42 | each antenna adds exactly one `;` clause when names hold no `;` |
| IdentifyBadAntennas.BuildFilter | plugins/PipelineStep_identifyBadAntennas.py:41-42 | the filter is the input followed by one `;!ant*` clause per common antenna, each exactly once, in the set's iteration order |
| IdentifyBadAntennas.PluginMain | plugins/PipelineStep_identifyBadAntennas.py:29-47 | missing parameters raise `KeyError`; load errors propagate; no unskipped file raises `ValueError`. Otherwise a string filter gains one clause per common antenna; a list filter is extended by the clause characters and converted with `str()`; any other filter raises `TypeError` unless no antenna is common |
| CheckUnflaggedFraction.FlagMap | scripts/check_unflagged_fraction.py:65-74 | one flag record per Measurement Set, in order; each holds the path, or `None` when its fraction is below the threshold |
| CheckUnflaggedFraction.FractionMap | scripts/check_unflagged_fraction.py:75 | one fraction record per Measurement Set, in order, holding its fraction |
| CheckUnflaggedFraction.FlagMapKeeps | scripts/check_unflagged_fraction.py:69-74 | when no set is itself named `None`, the paths left in the flag map are exactly those not below the threshold, in input order |
| CheckUnflaggedFraction.GateAll | scripts/check_unflagged_fraction.py:65-75 | the loop completes iff every fraction converts, and then builds exactly the flag map and the fraction map |
| CheckUnflaggedFraction.RunCheck | scripts/check_unflagged_fraction.py:60-80 | `main` completes iff every fraction converts and `filename` is a path. An unconvertible fraction raises `ValueError`; a non-path filename raises `AttributeError` after the loop. The flag map is saved at `mapfile_dir/filename` and the fraction map at `mapfile_dir/unflagged_fraction.mapfile` |
| CheckUnflaggedFraction.FlagMapSize | scripts/check_unflagged_fraction.py:60-61 | the flag map has one record per comma of the bracket-stripped list, plus one |
| CheckUnflaggedFraction.CommandLineAsWritten | scripts/check_unflagged_fraction.py:92 | as written, the command line never completes: it raises `AttributeError` when every fraction converts, else `ValueError` |
| CheckUnflaggedFraction.CommandLine | scripts/check_unflagged_fraction.py:87-92 | as intended, the command line completes iff every fraction converts; the flag mapfile gets the default name and gates on the `-f` threshold |
| PlotUvcov.Input2StrList | scripts/plot_uvcov.py:15-30 | a string gives at least one entry; a non-bracketed string gives its quote-and-space strip alone; a list gives one `str()`-converted, stripped entry per element; no entry starts or ends with a space or quote; other types raise `TypeError` |
| PlotUvcov.BracketedEntries | scripts/plot_uvcov.py:22-23 | a `[...]` string gives one entry per comma plus one; entry i is piece i stripped of spaces and quotes, and holds no comma |
| PlotUvcov.String2Bool | scripts/plot_uvcov.py:33-41 | `True` iff the value is the bool `True` or a string spelling TRUE in any case or `"1"`; `False` likewise for FALSE or `"0"`; a string that is neither raises `ValueError`, and any other type `AttributeError` |
| PlotUvcov.String2BoolStr | scripts/plot_uvcov.py:33-41 | `str(b)` of a bool converts back to `b`, as the bool `b` itself does |
| PlotUvcov.IntOfText | scripts/plot_uvcov.py:85 | `int(str(i))` is `i` for every integer; a string converts only when it is an integer literal (whitespace, an optional sign, whitespace after a sign, digits, whitespace), and then to the value that literal denotes |
| PlotUvcov.IntOfLiteral | scripts/plot_uvcov.py:85 | every integer literal, in the sense above, converts to the value it denotes, so whitespace after the sign is accepted as Python 2 accepts it |
| PlotUvcov.FileFormatShape | scripts/plot_uvcov.py:53 | the format is the text after the last `.`, or the whole name when it has none; it holds no `.` |
| PlotUvcov.AxisLimitCount | scripts/plot_uvcov.py:57-62 | the limits have four fields iff the stripped text has exactly three commas |
| PlotUvcov.ParseTimeslots | scripts/plot_uvcov.py:63-71 | anything but three fields exits. It succeeds iff each field is a non-negative integer, giving those integers. Otherwise the first bad field either raises `ValueError` or exits as negative |
| PlotUvcov.Range | scripts/plot_uvcov.py:79 | `range(a, b+1)` is `a, a+1, ..., b`, and empty when `a > b` |
| PlotUvcov.AppendRange | scripts/plot_uvcov.py:79-80 | the inner loop appends exactly `range(a, b+1)` |
| PlotUvcov.AppendToken | scripts/plot_uvcov.py:75-83 | one token appends its antennas, or stops `main` as `ExpandToken` says |
| PlotUvcov.ParseAntennas | scripts/plot_uvcov.py:72-83 | the antenna loop computes `ExpandAll` of the comma tokens |
| PlotUvcov.ExpandAllStops | scripts/plot_uvcov.py:72-83 | after a good prefix, a bad token decides the failure of the whole list |
| PlotUvcov.ExpandAllSucceeds | scripts/plot_uvcov.py:72-83 | when every token is good, the antennas are the tokens' antennas concatenated in order |
| PlotUvcov.ExpandAllFails | scripts/plot_uvcov.py:72-83 | the first bad token decides how the parse stops |
| PlotUvcov.ExpandRangeToken | scripts/plot_uvcov.py:76-80 | the decimal token `a..b` names `a, ..., b` (nothing if `a > b`); the decimal token `a` names `[a]` |
| PlotUvcov.ExpandTokenRejects | scripts/plot_uvcov.py:81-83 | a token holding `..` twice without overlap stops `main` |
| PlotUvcov.ParseSelection | scripts/plot_uvcov.py:47-83 | the checks run in order, and each failing one stops `main` with its error: the debug conversion, `TypeError` from the input list, no input, an unknown extension, the axis-limit count, the time-slot format or first bad time slot, and the first bad antenna token. They succeed iff all pass, and the results are the conversions they made |
| PlotUvcov.ParseSwitches | scripts/plot_uvcov.py:84-88 | the switches succeed iff all five convert; otherwise the first of `kilolambda`, `markersize`, `wideband`, `sameuv`, `flagged` that does not convert raises its error |
| PlotUvcov.ParseArguments | scripts/plot_uvcov.py:47-88 | the selection is checked first: each of its failures gives the same error as in `ParseSelection` (the debug conversion, `TypeError` from the input list, no input, an unknown extension, the axis-limit count, the time-slot format or first bad time slot, the first bad antenna token), whatever the switches are. Only after it passes can the first switch that does not convert raise its error. It succeeds iff both pass, carrying all their converted values |
| PlotUvcov.TimeSkip | scripts/plot_uvcov.py:129-135 | a non-zero skip is kept. With skip 0 the step is floor(n/100) when n is at least 100, else 1. A non-negative skip gives a step of at least 1 |
| PlotUvcov.SelectAntennas | scripts/plot_uvcov.py:144-145 | `[-1]` becomes every antenna index `0 .. len(antList)-1`; any other list is kept |
| PlotUvcov.PlottedMembers | scripts/plot_uvcov.py:156-157 | a baseline gets points iff both its antennas are selected and they differ |
| PlotUvcov.SelectBaselines | scripts/plot_uvcov.py:153-158 | the baseline loop keeps exactly the plotted baselines, in order, and counts them |
| PlotUvcov.PlanOne | scripts/plot_uvcov.py:110-158 | one pass over a Measurement Set gives exactly the plan and carried state of `StepMs` |
| PlotUvcov.PlanPlots | scripts/plot_uvcov.py:96-180 | the loop over the Measurement Sets gives exactly `PlanAll` |
| PlotUvcov.SeparateUvNeverReuses | scripts/plot_uvcov.py:110 | without `sameuv`, every Measurement Set is read and uses its own uv points |
| PlotUvcov.StickySettingsKept | scripts/plot_uvcov.py:137-145 | a non-zero end slot is used for every set, and so is an antenna list other than `[-1]` |
| PlotUvcov.FirstIsRead | scripts/plot_uvcov.py:110-138 | the first Measurement Set is always read in full, with the end slot defaulting to its slot count |
| PlotUvcov.PlansOnlyCrossBaselines | scripts/plot_uvcov.py:153-157 | every baseline any plan selects joins two distinct selected antennas |
| CreateRMh5parm.CleanMsList | scripts/createRMh5parm.py:66 | the cleaned list text holds no space and no `'` |
| CreateRMh5parm.MsFilesPieces | scripts/createRMh5parm.py:66 | no entry holds a space, `'` or `,`, and the entries joined by `,` give the cleaned text back |
| CreateRMh5parm.SelectMs | scripts/createRMh5parm.py:66-73 | the `ValueError` is unreachable: `MS` is always the first entry of the list |
| CreateRMh5parm.WidenTimerange | scripts/createRMh5parm.py:77-80 | the range is moved out by one time step at both ends, in place; a range of fewer than two values raises `IndexError` and is unchanged |
| CreateRMh5parm.PaddedReaches | scripts/createRMh5parm.py:82-85 | the padded last grid is non-empty and its last value is at least the end time; it ends at the end time unless it was left as it was; the old grid is a prefix and at most one value is added; padding twice is padding once |
| CreateRMh5parm.PadLastGrid | scripts/createRMh5parm.py:82-85 | only the last grid is replaced, by its padded copy; no grid at all raises `IndexError` |
| CreateRMh5parm.FirstFetcher | scripts/createRMh5parm.py:90-111 | ftp is used iff there is no proxy and the server does not contain `http`; otherwise urllib, with the proxy iff one is set |
| CreateRMh5parm.DayPolicy | scripts/createRMh5parm.py:88-133 | a day makes one or two requests; the first uses the configured server and prefix; a second happens iff the first fails and the server does not contain `igsiono.uwm.edu.pl`, and it goes over urllib to `https://igsiono.uwm.edu.pl` with prefix `igrg`; the day is obtained iff one of them succeeds |
| CreateRMh5parm.TriedComplete | scripts/createRMh5parm.py:87-133 | the loop completes iff every day has a grid and is obtained |
| CreateRMh5parm.TriedStops | scripts/createRMh5parm.py:87-133 | at the first day that is not obtained the loop returns -1; the requests are those of the earlier days and that day; no later day is tried |
| CreateRMh5parm.FetchDay | scripts/createRMh5parm.py:88-130 | one pass makes exactly the day's requests, and succeeds iff the day is obtained |
| CreateRMh5parm.FetchAll | scripts/createRMh5parm.py:87-133 | the loop over `times[::-1]` makes exactly the requests of `Tried` and ends as it says |
| CreateRMh5parm.LatestFirst | scripts/createRMh5parm.py:87 | the latest day is the first one requested |

## Left out

- `DataMap.load`/`save` and the mapfile text format belong to a library
  outside this repository. Loading is an oracle; saving is modelled by
  returning the records with the path they are saved at.
- Table access with casacore/pyrap: opening a table, queries, `getcol`,
  `getMSinfo` and `getIONEXtimerange`. These are foreign calls. Their
  results are parameters of the model.
- The DPPP and `taql` subprocesses are external processes. Their output
  lines or converted values are parameters of the model.
- `multiprocessing.Pool.map` in `identifyBadAntennas` is concurrency. It
  keeps input order, so it is modelled as a sequential map.
- In `plot_uvcov.py`, the matplotlib plotting, all float uv and wavelength
  arithmetic, the axis-limit defaults and the `title` are left out. They
  are rendering and floating point.
- Floats in general: unflagged fractions have an abstract type with a `<`
  parameter. Times in `createRMh5parm.py` are `real`, so there is no NaN
  and no rounding.
- `float(min_fraction)` in `check_unflagged_fraction.py` is not modelled:
  the threshold is already a value of the fraction type. `print_fraction`
  and the messages only produce output.
- RMextract's `getRM` is a library call. The h5parm solset and soltab
  writing, and `makesolset`, are I/O. None of them is modelled.
- The `createRMh5parm.py` command line passes `timestep=`, which `main` does
  not accept. The command line is not part of this model.
- Logging and `print` produce output only.
- `plugins/PipelineStep_getTargetName.py` is only a mapfile load and a table
  read, so it is not part of this model.
- The filesystem maps each path to a whole file or directory tree.
  Parent directories are not modelled, so copying into a missing parent
  succeeds. A `copytree` that fails halfway is modelled as leaving nothing.
  Destinations nested inside the source are not modelled.
- `delete_directory` comes from a library outside this repository. It is
  modelled as `shutil.rmtree` that ignores a missing path.
- Strings are sequences of characters. `unicode` values are not modelled,
  so `type(x) is str` is the `PyStr` case and `basestring` is `PyStr`.
  `str()` of a list uses `repr` on its items; the model renders strings
  without escaping.
- Raw `PyValue` is used only where the source checks the type of a
  parameter. `plot_uvcov.py`'s `output`, `limits`, `timeslots` and
  `antennas` are taken as strings, and a non-string there is not modelled.
- IONEX requests also carry the output path and the proxy details. These
  are passed unchanged, so a request records only its fetcher, day, server
  and prefix.
- IdentifyBadAntennas.BuildFilter: the clause order is the set's iteration
  order, which Python leaves unspecified; the contract says only that every
  common antenna appears exactly once.
- CopyFiles.ReplicateSpec compares paths as plain strings: a destination
  that names the source by another spelling (`./a`, an absolute path, a
  symbolic link) counts as distinct, whereas the real loop would delete the
  source before copying it. Path resolution is not modelled.
- CopyFiles.Prepare and CopyFiles.PluginMain read the destinations as
  documented, from the mapfile named by `output_files`, and not from
  `kwargs['files']` as line 40 of `PipelineStep_copyFiles.py` does. The
  as-written reading is modelled by `DestinationsAsWritten`, and "## Findings"
  gives an input on which the two differ.
- PlotUvcov.TimeSkip: `int(n/100)` truncates while the model takes the
  floor. The two agree because the slot count is at least 100 on that
  branch.

## Findings

| source | as written | input that shows it | evidently intended | confidence | as-written member | corrected member |
|---|---|---|---|---|---|---|
| plugins/PipelineStep_copyFiles.py:40 | the mapfile holding the destination list is loaded from `kwargs['files']`, a parameter that the step does not document; the bare `except` catches the resulting `KeyError` and falls back to parsing `output_files` as a list | `output_files='m'`, where `m` is any plain path naming a mapfile that lists the plain path `x`, and no `files` parameter | the destinations are read from the mapfile named by `output_files`, i.e. `x` | not executed; high | CopyFiles.DestinationsAsWritten, CopyFiles.AsWrittenCopiesOntoMapfile | CopyFiles.Destinations |
| scripts/check_unflagged_fraction.py:92 | `main(args.inputms, args.min_fraction, ...)` passes the threshold as the second positional argument, `filename`. The threshold stays at its default, and `os.path.join('', 0.01)` raises `AttributeError` after the loop | any run of the script on Measurement Sets whose fractions convert | the threshold given with `-f` is passed as `min_fraction`, and the flag mapfile keeps its default name | not executed; high | CheckUnflaggedFraction.CommandLineAsWritten | CheckUnflaggedFraction.CommandLine |

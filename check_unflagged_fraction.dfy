/** `check_unflagged_fraction.py`: replaces every Measurement Set of a list
    whose unflagged fraction is below a threshold by the sentinel `"None"` in
    a flag mapfile, and records every fraction in a second mapfile.

    Fractions are values of an abstract type `F` compared with `lt`, the
    Python `<` on floats (NaN included: `lt` need not be a total order). The
    `taql` query per Measurement Set is an oracle `fraction` that gives no
    value when its output does not convert with `float()`. */
module CheckUnflaggedFraction {
  import opened Python
  import opened PyStrings
  import opened Mapfiles

  /** What `main` receives as `filename`: a path, or a threshold passed in
      its place. */
  datatype Name<F> = Path(s: string) | Number(x: F)

  /** The two mapfiles `main` saves, with their paths. */
  datatype Saved<F> = Saved(flagPath: string, flags: seq<DataProduct>,
                            fractionPath: string, fractions: seq<Product<F>>)

  const Sentinel := "None"
  const FractionMapfile := "unflagged_fraction.mapfile"
  const DefaultFilename := "check_unflagged.mapfile"

  /** The flag record of one Measurement Set. */
  function FlagRecord<F>(ms: string, f: F, minFraction: F, lt: (F, F) -> bool): DataProduct {
    Product("localhost", if lt(f, minFraction) then Sentinel else ms, false)
  }

  /** The flag map of `mss` with fractions `fracs`, in order. */
  function FlagMap<F>(mss: seq<string>, fracs: seq<F>, minFraction: F, lt: (F, F) -> bool): (r: seq<DataProduct>)
    requires |mss| == |fracs|
    ensures |r| == |mss|
    ensures forall i :: 0 <= i < |r| ==> r[i] == FlagRecord(mss[i], fracs[i], minFraction, lt)
    decreases |mss|
  {
    if |mss| == 0 then []
    else FlagMap(mss[..|mss| - 1], fracs[..|fracs| - 1], minFraction, lt)
         + [FlagRecord(mss[|mss| - 1], fracs[|fracs| - 1], minFraction, lt)]
  }

  /** The fraction map: one record per Measurement Set holding its fraction. */
  function FractionMap<F>(fracs: seq<F>): (r: seq<Product<F>>)
    ensures |r| == |fracs|
    ensures forall i :: 0 <= i < |r| ==> r[i] == Product("localhost", fracs[i], false)
  {
    seq(|fracs|, i requires 0 <= i < |fracs| => Product("localhost", fracs[i], false))
  }

  /** The fractions the oracle gives for `mss`. */
  function Fractions<F>(mss: seq<string>, fraction: string -> Option<F>): (r: seq<F>)
    requires forall i :: 0 <= i < |mss| ==> fraction(mss[i]).Some?
    ensures |r| == |mss|
  {
    seq(|mss|, i requires 0 <= i < |mss| && fraction(mss[i]).Some? => fraction(mss[i]).value)
  }

  /** The Measurement Sets a threshold keeps, in order. */
  function Kept<F>(mss: seq<string>, fracs: seq<F>, minFraction: F, lt: (F, F) -> bool): seq<string>
    requires |mss| == |fracs|
    decreases |mss|
  {
    if |mss| == 0 then []
    else
      Kept(mss[..|mss| - 1], fracs[..|fracs| - 1], minFraction, lt)
      + (if lt(fracs[|fracs| - 1], minFraction) then [] else [mss[|mss| - 1]])
  }

  /** The files of a flag map that are not the sentinel, in order. */
  function Remaining(flags: seq<DataProduct>): seq<string>
    decreases |flags|
  {
    if |flags| == 0 then []
    else
      Remaining(flags[..|flags| - 1])
      + (if flags[|flags| - 1].file == Sentinel then [] else [flags[|flags| - 1].file])
  }

  /** When no Measurement Set is itself called `None`, the paths left in the
      flag map are exactly the ones whose fraction is not below the
      threshold, in input order. */
  lemma {:induction false} FlagMapKeeps<F>(mss: seq<string>, fracs: seq<F>, minFraction: F, lt: (F, F) -> bool)
    requires |mss| == |fracs|
    requires forall i :: 0 <= i < |mss| ==> mss[i] != Sentinel
    ensures Remaining(FlagMap(mss, fracs, minFraction, lt)) == Kept(mss, fracs, minFraction, lt)
    decreases |mss|
  {
    if |mss| > 0 {
      var flags := FlagMap(mss, fracs, minFraction, lt);
      assert flags[..|flags| - 1] == FlagMap(mss[..|mss| - 1], fracs[..|fracs| - 1], minFraction, lt);
      FlagMapKeeps(mss[..|mss| - 1], fracs[..|fracs| - 1], minFraction, lt);
    }
  }

  /** The loop of `main` (lines 65-75): appends one flag record and one
      fraction record per Measurement Set, until a fraction does not convert. */
  method GateAll<F>(mss: seq<string>, minFraction: F, fraction: string -> Option<F>, lt: (F, F) -> bool)
    returns (ok: bool, flags: seq<DataProduct>, fractions: seq<Product<F>>)
    ensures ok <==> forall i :: 0 <= i < |mss| ==> fraction(mss[i]).Some?
    ensures ok ==> flags == FlagMap(mss, Fractions(mss, fraction), minFraction, lt)
    ensures ok ==> fractions == FractionMap(Fractions(mss, fraction))
  {
    flags := [];
    fractions := [];
    ghost var fracs: seq<F> := [];
    var i := 0;
    while i < |mss|
      invariant 0 <= i <= |mss|
      invariant |fracs| == i
      invariant forall k :: 0 <= k < i ==> fraction(mss[k]) == Some(fracs[k])
      invariant |flags| == |fractions| == i
      invariant forall k :: 0 <= k < i ==> flags[k] == FlagRecord(mss[k], fracs[k], minFraction, lt)
      invariant forall k :: 0 <= k < i ==> fractions[k] == Product("localhost", fracs[k], false)
    {
      var ms := mss[i];
      var f := fraction(ms);
      if f.None? {
        return false, flags, fractions;
      }
      if lt(f.value, minFraction) {
        flags := flags + [Product("localhost", Sentinel, false)];
      } else {
        flags := flags + [Product("localhost", ms, false)];
      }
      fractions := fractions + [Product("localhost", f.value, false)];
      fracs := fracs + [f.value];
      i := i + 1;
    }
    assert fracs == Fractions(mss, fraction);
    ok := true;
  }

  /** `main`: one flag record and one fraction record per Measurement Set of
      the list, both saved under `mapfile_dir`. The flag mapfile's path is
      joined first, after the loop, so a non-string `filename` raises then
      and nothing is saved. */
  method RunCheck<F>(msList: string, filename: Name<F>, mapfileDir: string, minFraction: F,
                     fraction: string -> Option<F>, lt: (F, F) -> bool)
    returns (r: Result<Saved<F>, PyError>)
    ensures var mss := ParseListString(msList);
            r.Ok? <==> (forall i :: 0 <= i < |mss| ==> fraction(mss[i]).Some?) && filename.Path?
    ensures var mss := ParseListString(msList);
            (exists i :: 0 <= i < |mss| && fraction(mss[i]).None?) ==> r == Err(ValueError)
    ensures var mss := ParseListString(msList);
            (forall i :: 0 <= i < |mss| ==> fraction(mss[i]).Some?) && filename.Number? ==> r == Err(AttributeError)
    ensures r.Ok? ==>
      var mss := ParseListString(msList);
      var fracs := Fractions(mss, fraction);
      && r.value.flagPath == PathJoin(mapfileDir, filename.s)
      && r.value.flags == FlagMap(mss, fracs, minFraction, lt)
      && r.value.fractionPath == PathJoin(mapfileDir, FractionMapfile)
      && r.value.fractions == FractionMap(fracs)
  {
    var mss := ParseListString(msList);
    var ok, flags, fractions := GateAll(mss, minFraction, fraction, lt);
    if !ok {
      return Err(ValueError);
    }
    if filename.Number? {
      // Python 2's posixpath.join calls `filename.startswith`
      return Err(AttributeError);
    }
    r := Ok(Saved(PathJoin(mapfileDir, filename.s), flags,
                  PathJoin(mapfileDir, FractionMapfile), fractions));
  }

  /** The flag map has one record per comma of the bracket-stripped list, plus
      one, and each names its Measurement Set or the sentinel. */
  lemma FlagMapSize<F>(msList: string, fracs: seq<F>, minFraction: F, lt: (F, F) -> bool)
    requires |fracs| == |ParseListString(msList)|
    ensures |FlagMap(ParseListString(msList), fracs, minFraction, lt)| == multiset(Strip(msList, Brackets))[','] + 1
  {
    ParseListEntries(msList);
  }

  /** The command line as written: `main(args.inputms, args.min_fraction, ...)`
      puts the threshold into `filename`, so `mapfile_dir` is `''`, the
      threshold is the default, and no run completes. */
  method CommandLineAsWritten<F>(inputms: string, threshold: F, defaultMin: F,
                                 fraction: string -> Option<F>, lt: (F, F) -> bool)
    returns (r: Result<Saved<F>, PyError>)
    ensures var mss := ParseListString(inputms);
            r == Err(if forall i :: 0 <= i < |mss| ==> fraction(mss[i]).Some? then AttributeError else ValueError)
  {
    r := RunCheck(inputms, Number(threshold), "", defaultMin, fraction, lt);
  }

  /** The command line as intended: the threshold given with `-f` decides, and
      the flag mapfile gets the default name. */
  method CommandLine<F>(inputms: string, threshold: F,
                        fraction: string -> Option<F>, lt: (F, F) -> bool)
    returns (r: Result<Saved<F>, PyError>)
    ensures var mss := ParseListString(inputms);
            r.Ok? <==> forall i :: 0 <= i < |mss| ==> fraction(mss[i]).Some?
    ensures r.Ok? ==>
      var mss := ParseListString(inputms);
      && r.value.flagPath == DefaultFilename
      && r.value.flags == FlagMap(mss, Fractions(mss, fraction), threshold, lt)
  {
    r := RunCheck(inputms, Path(DefaultFilename), "", threshold, fraction, lt);
  }
}

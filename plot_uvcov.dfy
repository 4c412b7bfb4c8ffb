/** `plot_uvcov.py`: the argument checks of `main` and the rules that pick,
    per Measurement Set, the time sampling, the antennas and the baselines
    whose uv points are plotted.

    What is read from a Measurement Set (its number of time slots, the
    length of its antenna table and its baselines) is given as `MsInfo`.
    Python 2 semantics throughout. */
module PlotUvcov {
  import opened Python
  import opened PyStrings
  import opened Mapfiles
  import AddListMapfile

  /** The characters `strip(' \'"')` removes. */
  const QuoteSpace: set<char> := {' ', '\'', '"'}

  /** The output extensions `main` accepts. */
  const Formats: seq<string> := ["png", "pdf", "eps", "ps"]

  /** Why `main` prints an error and calls `sys.exit(1)`. */
  datatype ExitReason = NoInput | UnknownExtension | AxisLimits | TimeslotFormat | NegativeTimeslot | AntennaList

  /** How `main` stops: an exception, or an explicit exit. */
  datatype Failure = Raised(error: PyError) | Exit(reason: ExitReason)

  // ---------------------------------------------------------------------
  // Conversions

  /** Every piece stripped of spaces and quotes. */
  function TrimAll(pieces: seq<string>): (r: seq<string>)
    ensures |r| == |pieces|
    ensures forall i :: 0 <= i < |r| ==> r[i] == Strip(pieces[i], QuoteSpace)
    ensures forall i :: 0 <= i < |r| ==> r[i] == [] || (r[i][0] !in QuoteSpace && r[i][|r[i]| - 1] !in QuoteSpace)
  {
    seq(|pieces|, i requires 0 <= i < |pieces| => Strip(pieces[i], QuoteSpace))
  }

  /** `invar.startswith('[') and invar.endswith(']')` */
  predicate Bracketed(s: string) {
    |s| > 0 && s[0] == '[' && s[|s| - 1] == ']'
  }

  /** `input2strlist_nomapfile` */
  function Input2StrList(invar: PyValue): (r: Result<seq<string>, PyError>)
    ensures r.Err? <==> !invar.PyStr? && !invar.PyList?
    ensures r.Err? ==> r.error == TypeError
    ensures invar.PyStr? ==> |r.value| >= 1
    ensures invar.PyStr? && !Bracketed(invar.s) ==> r == Ok([Strip(invar.s, QuoteSpace)])
    ensures invar.PyList? ==> |r.value| == |invar.items|
    ensures invar.PyList? ==> forall i :: 0 <= i < |invar.items| ==> r.value[i] == Strip(Str(invar.items[i]), QuoteSpace)
    ensures r.Ok? ==> forall i :: 0 <= i < |r.value| ==>
              r.value[i] == [] || (r.value[i][0] !in QuoteSpace && r.value[i][|r.value[i]| - 1] !in QuoteSpace)
  {
    match invar
    case PyStr(s) =>
      if Bracketed(s) then Ok(TrimAll(SplitBracketList(s))) else Ok([Strip(s, QuoteSpace)])
    case PyList(items) => Ok(TrimAll(seq(|items|, i requires 0 <= i < |items| => Str(items[i]))))
    case _ => Err(TypeError)
  }

  /** A bracketed string gives one entry per comma-separated piece, each
      free of commas. */
  lemma BracketedEntries(s: string)
    requires Bracketed(s)
    ensures var r := Input2StrList(PyStr(s)).value;
            && |r| == multiset(Strip(s, Brackets))[','] + 1
            && forall i :: 0 <= i < |r| ==> r[i] == Strip(SplitBracketList(s)[i], QuoteSpace) && ',' !in r[i]
  {
    var pieces := SplitBracketList(s);
    var r := Input2StrList(PyStr(s)).value;
    BracketListPieces(s);
    forall i | 0 <= i < |r| ensures ',' !in r[i] {
      assert pieces[i] in pieces;
      StripInfix(pieces[i], QuoteSpace, ',');
    }
  }

  /** `string2bool` of this script: a bool is returned as it is, a string is
      converted as in `addListMapfile`, and anything else has no `upper`. */
  function String2Bool(v: PyValue): (r: Result<bool, PyError>)
    ensures r == Ok(true) <==> v == PyBool(true) || (v.PyStr? && (SpellsIgnoringCase(v.s, "TRUE") || v.s == "1"))
    ensures r == Ok(false) <==> v == PyBool(false) || (v.PyStr? && (SpellsIgnoringCase(v.s, "FALSE") || v.s == "0"))
    ensures r.Err? ==> r.error == if v.PyStr? then ValueError else AttributeError
  {
    match v
    case PyBool(b) => Ok(b)
    case PyStr(_) => AddListMapfile.String2Bool(v)
    case _ => Err(AttributeError)
  }

  /** `str(b)` of a bool converts back to `b`, as `b` itself does. */
  lemma String2BoolStr(b: bool)
    ensures String2Bool(PyStr(Str(PyBool(b)))) == String2Bool(PyBool(b)) == Ok(b)
  {
  }

  /** `int(v)` */
  function IntOf(v: PyValue): (r: Result<int, PyError>)
    ensures v.PyInt? ==> r == Ok(v.i)
    ensures v.PyBool? ==> r == Ok(if v.b then 1 else 0)
    ensures v.PyStr? ==> (r.Ok? <==> ParseInt(v.s).Some?)
    ensures v.PyStr? && r.Ok? ==> r.value == ParseInt(v.s).value
    ensures (v.PyStr? && r.Err?) ==> r.error == ValueError
    ensures (v.PyNone? || v.PyList?) ==> r == Err(TypeError)
  {
    match v
    case PyInt(i) => Ok(i)
    case PyBool(b) => Ok(if b then 1 else 0)
    case PyStr(s) => if ParseInt(s).Some? then Ok(ParseInt(s).value) else Err(ValueError)
    case _ => Err(TypeError)
  }

  /** `int(str(i))` is `i` for every integer, and a string converts exactly
      when it is an integer literal: optional whitespace, an optional sign,
      optional whitespace after a sign, digits and optional whitespace. */
  lemma IntOfText(i: int, s: string)
    ensures IntOf(PyStr(Str(PyInt(i)))) == Ok(i)
    ensures IntOf(PyStr(s)).Ok? ==>
              exists w1, sign, w2, d, w3 :: IntLiteral(w1, sign, w2, d, w3) && s == w1 + (sign + w2 + d) + w3 &&
                                           IntOf(PyStr(s)) == Ok(LiteralValue(sign, d))
  {
    ParseIntString(i);
    if IntOf(PyStr(s)).Ok? {
      var w1, sign, w2, d, w3 := ParseIntParts(s);
    }
  }

  /** Every integer literal converts, to the value it denotes. */
  lemma IntOfLiteral(w1: string, sign: string, w2: string, d: string, w3: string)
    requires IntLiteral(w1, sign, w2, d, w3)
    ensures IntOf(PyStr(w1 + (sign + w2 + d) + w3)) == Ok(LiteralValue(sign, d))
  {
    ParseIntAccepts(w1, sign, w2, d, w3);
  }

  // ---------------------------------------------------------------------
  // Output name, axis limits, time slots

  /** `output.split('.')[-1]` */
  function FileFormat(output: string): string {
    Last(Split(output, "."))
  }

  /** The format is the text after the last dot, or the whole name when it
      has none. */
  lemma FileFormatShape(output: string)
    ensures '.' !in FileFormat(output)
    ensures '.' !in output ==> FileFormat(output) == output
    ensures '.' in output ==> exists pre :: output == pre + "." + FileFormat(output)
  {
    LastPiece(output, '.');
    if '.' in output {
      var pre :| output == pre + ['.'] + FileFormat(output);
      assert output == pre + "." + FileFormat(output);
    }
  }

  /** `limits.strip().split(',')` */
  function AxisLimitFields(limits: string): seq<string> {
    Split(Strip(limits, Whitespace), ",")
  }

  /** The limits have four fields exactly when the stripped text has three
      commas. */
  lemma AxisLimitCount(limits: string)
    ensures |AxisLimitFields(limits)| == 4 <==> multiset(Strip(limits, Whitespace))[','] == 3
  {
    SplitCount(Strip(limits, Whitespace), ',');
  }

  /** A time-slot field that converts to a non-negative integer. */
  predicate GoodSlot(p: string) {
    ParseInt(p).Some? && ParseInt(p).value >= 0
  }

  /** How a bad time-slot field stops `main`. */
  function SlotFailure(p: string): Failure {
    if ParseInt(p).None? then Raised(ValueError) else Exit(NegativeTimeslot)
  }

  /** The first bad field among good ones decides how the time-slot check
      stops. */
  lemma SlotStops(parts: seq<string>, i: nat, f: Failure)
    requires i < |parts| && !GoodSlot(parts[i]) && f == SlotFailure(parts[i])
    requires forall j :: 0 <= j < i ==> GoodSlot(parts[j])
    ensures !forall k :: 0 <= k < |parts| ==> GoodSlot(parts[k])
    ensures exists k :: 0 <= k < |parts| && (forall j :: 0 <= j < k ==> GoodSlot(parts[j])) &&
                        !GoodSlot(parts[k]) && f == SlotFailure(parts[k])
  {
  }

  /** The time-slot text passes lines 63-71. */
  ghost predicate SlotsAccepted(timeslots: string) {
    var parts := Split(timeslots, ",");
    |parts| == 3 && forall k :: 0 <= k < 3 ==> GoodSlot(parts[k])
  }

  /** How lines 63-71 stop: without three fields at the format check, else
      at the first bad field. */
  ghost predicate SlotsFailWith(timeslots: string, f: Failure) {
    var parts := Split(timeslots, ",");
    if |parts| != 3 then f == Exit(TimeslotFormat)
    else exists k :: 0 <= k < 3 && (forall j :: 0 <= j < k ==> GoodSlot(parts[j])) &&
                     !GoodSlot(parts[k]) && f == SlotFailure(parts[k])
  }

  /** The time-slot checks (lines 63-71): three comma-separated fields, each
      converted in place, in order, to a non-negative integer. */
  method ParseTimeslots(timeslots: string) returns (r: Result<seq<int>, Failure>)
    ensures var parts := Split(timeslots, ",");
            |parts| != 3 ==> r == Err(Exit(TimeslotFormat))
    ensures var parts := Split(timeslots, ",");
            r.Ok? <==> |parts| == 3 && forall k :: 0 <= k < 3 ==> GoodSlot(parts[k])
    ensures var parts := Split(timeslots, ",");
            r.Ok? ==> |r.value| == 3 && forall k :: 0 <= k < 3 ==> ParseInt(parts[k]) == Some(r.value[k])
    ensures var parts := Split(timeslots, ",");
            r.Err? && |parts| == 3 ==>
              exists k :: 0 <= k < 3 && (forall j :: 0 <= j < k ==> GoodSlot(parts[j])) &&
                          !GoodSlot(parts[k]) && r.error == SlotFailure(parts[k])
  {
    var parts := Split(timeslots, ",");
    if |parts| != 3 {
      return Err(Exit(TimeslotFormat));
    }
    var values: seq<int> := [0, 0, 0];
    var i := 0;
    while i < 3
      invariant 0 <= i <= 3 && |values| == 3
      invariant forall k :: 0 <= k < i ==> GoodSlot(parts[k]) && ParseInt(parts[k]) == Some(values[k])
    {
      var v := ParseInt(parts[i]);
      if v.None? {
        SlotStops(parts, i, Raised(ValueError));
        return Err(Raised(ValueError));
      }
      values := values[i := v.value];
      if values[i] < 0 {
        SlotStops(parts, i, Exit(NegativeTimeslot));
        return Err(Exit(NegativeTimeslot));
      }
      i := i + 1;
    }
    r := Ok(values);
  }

  // ---------------------------------------------------------------------
  // Antenna lists

  /** `range(a, b + 1)` */
  function Range(a: int, b: int): (r: seq<int>)
    ensures |r| == if a <= b then b - a + 1 else 0
    ensures forall i :: 0 <= i < |r| ==> r[i] == a + i
  {
    if a <= b then seq(b - a + 1, i requires 0 <= i < b - a + 1 => a + i) else []
  }

  /** The antennas one comma-separated token names: an integer, or a range
      `a..b`; a token with more pieces stops `main`. */
  function ExpandToken(tok: string): Result<seq<int>, Failure> {
    var parts := Split(tok, "..");
    if |parts| == 1 then
      if ParseInt(tok).Some? then Ok([ParseInt(tok).value]) else Err(Raised(ValueError))
    else if |parts| == 2 then
      if ParseInt(parts[0]).Some? && ParseInt(parts[1]).Some? then
        Ok(Range(ParseInt(parts[0]).value, ParseInt(parts[1]).value))
      else Err(Raised(ValueError))
    else Err(Exit(AntennaList))
  }

  /** The antennas of a token list, in order, up to the first bad token. */
  function ExpandAll(toks: seq<string>): Result<seq<int>, Failure>
    decreases |toks|
  {
    if |toks| == 0 then Ok([])
    else
      match ExpandAll(toks[..|toks| - 1])
      case Err(e) => Err(e)
      case Ok(prev) =>
        match ExpandToken(toks[|toks| - 1])
        case Err(e) => Err(e)
        case Ok(more) => Ok(prev + more)
  }

  /** `for j in range(lo, hi + 1): acc.append(j)` */
  method AppendRange(antToPlot: seq<int>, lo: int, hi: int) returns (acc: seq<int>)
    ensures acc == antToPlot + Range(lo, hi)
  {
    acc := antToPlot;
    var j := lo;
    while j < hi + 1
      invariant lo <= j && (j <= hi + 1 || j == lo)
      invariant acc == antToPlot + Range(lo, j - 1)
    {
      acc := acc + [j];
      j := j + 1;
    }
  }

  /** `antToPlot` extended by the antennas of one token, or how the token
      stops `main`; a range is appended one antenna at a time. */
  method AppendToken(antToPlot: seq<int>, tok: string) returns (r: Result<seq<int>, Failure>)
    ensures ExpandToken(tok).Ok? ==> r == Ok(antToPlot + ExpandToken(tok).value)
    ensures ExpandToken(tok).Err? ==> r == ExpandToken(tok)
  {
    var parts := Split(tok, "..");
    if |parts| == 1 {
      var v := ParseInt(tok);
      if v.None? {
        r := Err(Raised(ValueError));
      } else {
        r := Ok(antToPlot + [v.value]);
        assert ExpandToken(tok) == Ok([v.value]);
      }
    } else if |parts| == 2 {
      var lo := ParseInt(parts[0]);
      var hi := ParseInt(parts[1]);
      if lo.None? || hi.None? {
        r := Err(Raised(ValueError));
      } else {
        var acc := AppendRange(antToPlot, lo.value, hi.value);
        r := Ok(acc);
        assert ExpandToken(tok) == Ok(Range(lo.value, hi.value));
      }
    } else {
      r := Err(Exit(AntennaList));
    }
  }

  /** One more token of the antenna loop: a good token extends the parse of
      the prefix, and a bad one decides the parse of the whole list. */
  lemma AntennaStep(toks: seq<string>, i: nat, acc: seq<int>, next: Result<seq<int>, Failure>)
    requires i < |toks| && ExpandAll(toks[..i]) == Ok(acc)
    requires next == match ExpandToken(toks[i]) case Ok(more) => Ok(acc + more) case Err(e) => Err(e)
    ensures next.Ok? ==> ExpandAll(toks[..i + 1]) == next
    ensures next.Err? ==> ExpandAll(toks) == next
  {
    assert toks[..i + 1][..i] == toks[..i];
    if next.Err? {
      ExpandAllStops(toks, i + 1);
    }
  }

  /** The antenna parse (lines 72-83): the comma tokens in order, each
      appended to `antToPlot`. */
  method ParseAntennas(antennas: string) returns (r: Result<seq<int>, Failure>)
    ensures r == ExpandAll(Split(antennas, ","))
  {
    var toks := Split(antennas, ",");
    var antToPlot: seq<int> := [];
    var i := 0;
    assert toks[..0] == [];
    while i < |toks|
      invariant 0 <= i <= |toks|
      invariant ExpandAll(toks[..i]) == Ok(antToPlot)
    {
      var next := AppendToken(antToPlot, toks[i]);
      AntennaStep(toks, i, antToPlot, next);
      if next.Err? {
        return next;
      }
      antToPlot := next.value;
      i := i + 1;
    }
    assert toks[..i] == toks;
    r := Ok(antToPlot);
  }

  /** Once a prefix of the tokens fails, the whole list fails the same way. */
  lemma ExpandAllStops(toks: seq<string>, n: nat)
    requires 0 < n <= |toks|
    requires ExpandAll(toks[..n - 1]).Ok? && ExpandToken(toks[n - 1]).Err?
    ensures ExpandAll(toks) == Err(ExpandToken(toks[n - 1]).error)
  {
    assert toks[..n][..n - 1] == toks[..n - 1];
    ExpandAllFailed(toks, n);
  }

  lemma {:induction false} ExpandAllFailed(toks: seq<string>, n: nat)
    requires 0 < n <= |toks|
    requires ExpandAll(toks[..n]).Err?
    ensures ExpandAll(toks) == ExpandAll(toks[..n])
    decreases |toks| - n
  {
    if n < |toks| {
      assert toks[..n + 1][..n] == toks[..n];
      ExpandAllFailed(toks, n + 1);
    } else {
      assert toks[..n] == toks;
    }
  }

  /** The antennas of each token of a list in which every token is good, in
      token order. */
  function TokenValues(toks: seq<string>): (r: seq<seq<int>>)
    requires forall k :: 0 <= k < |toks| ==> ExpandToken(toks[k]).Ok?
    ensures |r| == |toks|
    decreases |toks|
  {
    if |toks| == 0 then []
    else
      var init := toks[..|toks| - 1];
      assert forall k :: 0 <= k < |init| ==> init[k] == toks[k];
      TokenValues(init) + [ExpandToken(toks[|toks| - 1]).value]
  }

  /** When every token is good, the antennas are those of the tokens
      concatenated in order. */
  lemma {:induction false} ExpandAllSucceeds(toks: seq<string>)
    requires forall k :: 0 <= k < |toks| ==> ExpandToken(toks[k]).Ok?
    ensures ExpandAll(toks) == Ok(Concat(TokenValues(toks)))
    decreases |toks|
  {
    if |toks| > 0 {
      var init := toks[..|toks| - 1];
      assert forall k :: 0 <= k < |init| ==> init[k] == toks[k];
      ExpandAllSucceeds(init);
      var vs := TokenValues(toks);
      assert vs[..|vs| - 1] == TokenValues(init);
    }
  }

  /** The first bad token decides the failure. */
  lemma ExpandAllFails(toks: seq<string>, k: nat)
    requires k < |toks| && ExpandToken(toks[k]).Err?
    requires forall j :: 0 <= j < k ==> ExpandToken(toks[j]).Ok?
    ensures ExpandAll(toks) == Err(ExpandToken(toks[k]).error)
  {
    var init := toks[..k];
    assert forall j :: 0 <= j < |init| ==> init[j] == toks[j];
    ExpandAllSucceeds(init);
    ExpandAllStops(toks, k + 1);
  }

  /** The decimal text of an integer holds no dot. */
  lemma IntTextHasNoDot(a: int)
    ensures '.' !in IntToString(a)
  {
    var d := NatToString(if a < 0 then -a else a);
    assert forall k :: 0 <= k < |d| ==> d[k] != '.';
    if a < 0 {
      assert IntToString(a) == "-" + d;
      assert forall k :: 0 <= k < |IntToString(a)| ==> IntToString(a)[k] != '.' by {
        forall k | 0 <= k < |IntToString(a)| ensures IntToString(a)[k] != '.' {
          if k > 0 { assert IntToString(a)[k] == d[k - 1]; }
        }
      }
    }
  }

  /** A dot-free text split on `..` is itself. */
  lemma SplitDotFree(b: string)
    requires '.' !in b
    ensures Split(b, "..") == [b]
  {
    forall j ensures !OccursAt(b, "..", j) {
      if 0 <= j && j + 2 <= |b| {
        assert b[j..j + 2][0] == b[j] != '.';
      }
    }
    SplitSingle(b, "..");
  }

  /** Two dot-free texts joined by `..` split back into the two. */
  lemma SplitRange(a: string, b: string)
    requires '.' !in a && '.' !in b
    ensures Split(a + ".." + b, "..") == [a, b]
  {
    var s := a + ".." + b;
    assert s[|a|..|a| + 2] == "..";
    forall j | 0 <= j < |a| ensures !OccursAt(s, "..", j) {
      if j + 2 <= |s| {
        assert s[j..j + 2][0] == s[j] == a[j] != '.';
      }
    }
    FindReaches(s, "..", 0, |a|);
    assert s[..|a|] == a;
    assert s[|a| + 2..] == b;
    SplitDotFree(b);
  }

  /** The token `a..b` written in decimal names `a, a+1, ..., b`, nothing when
      `a > b`; an integer token names itself. */
  lemma ExpandRangeToken(a: int, b: int)
    ensures ExpandToken(IntToString(a) + ".." + IntToString(b)) == Ok(Range(a, b))
    ensures ExpandToken(IntToString(a)) == Ok([a])
  {
    IntTextHasNoDot(a);
    IntTextHasNoDot(b);
    SplitRange(IntToString(a), IntToString(b));
    SplitDotFree(IntToString(a));
    ParseIntString(a);
    ParseIntString(b);
  }

  /** A token holding `..` twice without overlap stops `main`. */
  lemma ExpandTokenRejects(tok: string, i: int, j: int)
    requires OccursAt(tok, "..", i) && OccursAt(tok, "..", j) && i + 2 <= j
    ensures ExpandToken(tok) == Err(Exit(AntennaList))
  {
    OccursSplitThree(tok, "..", i, j);
  }

  // ---------------------------------------------------------------------
  // The checks of `main`, lines 47-88
  /** The list, output and selection settings `main` checks first (lines
      47-83). */
  datatype Selection = Selection(debug: bool, msList: seq<string>, fileformat: string,
                                 limits: seq<string>, timeslots: seq<int>, antennas: seq<int>)

  /** The switches converted after them (lines 84-88). */
  datatype Switches = Switches(kilolambda: bool, markerSize: int, wideband: bool, sameuv: bool, flagged: bool)

  /** The settings `main` goes on with once its parameters are checked. */
  datatype Options = Options(selection: Selection, switches: Switches)

  /** The list and selection parameters pass the checks of `main`. */
  ghost predicate SelectionAccepted(input: PyValue, output: string, limits: string, timeslots: string,
                                    antennas: string, debug: PyValue)
  {
    var parts := Split(timeslots, ",");
    && String2Bool(debug).Ok?
    && Input2StrList(input).Ok? && |Input2StrList(input).value| > 0
    && FileFormat(output) in Formats
    && |AxisLimitFields(limits)| == 4
    && |parts| == 3 && (forall k :: 0 <= k < 3 ==> GoodSlot(parts[k]))
    && ExpandAll(Split(antennas, ",")).Ok?
  }

  /** The checks of lines 47-56 pass. */
  ghost predicate NamesAccepted(input: PyValue, output: string, debug: PyValue) {
    && String2Bool(debug).Ok?
    && Input2StrList(input).Ok? && |Input2StrList(input).value| > 0
    && FileFormat(output) in Formats
  }

  /** `e` is the error the first failing check of lines 47-83 stops `main`
      with: the debug conversion, `TypeError` from the input list, no input,
      an unknown extension, the axis-limit count, the time-slot format or
      first bad time slot, the first bad antenna token. */
  ghost predicate SelectionFailsWith(input: PyValue, output: string, limits: string, timeslots: string,
                                     antennas: string, debug: PyValue, e: Failure)
  {
    && (String2Bool(debug).Err? ==> e == Raised(String2Bool(debug).error))
    && (String2Bool(debug).Ok? && Input2StrList(input).Err? ==> e == Raised(TypeError))
    && (String2Bool(debug).Ok? && Input2StrList(input) == Ok([]) ==> e == Exit(NoInput))
    && ((String2Bool(debug).Ok? && Input2StrList(input).Ok? && |Input2StrList(input).value| > 0 &&
         FileFormat(output) !in Formats) ==> e == Exit(UnknownExtension))
    && (NamesAccepted(input, output, debug) && |AxisLimitFields(limits)| != 4 ==> e == Exit(AxisLimits))
    && (NamesAccepted(input, output, debug) && |AxisLimitFields(limits)| == 4 && !SlotsAccepted(timeslots) ==>
          SlotsFailWith(timeslots, e))
    && ((NamesAccepted(input, output, debug) && |AxisLimitFields(limits)| == 4 && SlotsAccepted(timeslots) &&
         ExpandAll(Split(antennas, ",")).Err?) ==> e == ExpandAll(Split(antennas, ",")).error)
  }

  /** Lines 47-83, in order: each check that fails stops `main` there. */
  method ParseSelection(input: PyValue, output: string, limits: string, timeslots: string,
                        antennas: string, debug: PyValue)
    returns (r: Result<Selection, Failure>)
    ensures String2Bool(debug).Err? ==> r == Err(Raised(String2Bool(debug).error))
    ensures String2Bool(debug).Ok? && Input2StrList(input).Err? ==> r == Err(Raised(TypeError))
    ensures String2Bool(debug).Ok? && Input2StrList(input) == Ok([]) ==> r == Err(Exit(NoInput))
    ensures (String2Bool(debug).Ok? && Input2StrList(input).Ok? && |Input2StrList(input).value| > 0 &&
             FileFormat(output) !in Formats) ==> r == Err(Exit(UnknownExtension))
    ensures NamesAccepted(input, output, debug) && |AxisLimitFields(limits)| != 4 ==> r == Err(Exit(AxisLimits))
    ensures NamesAccepted(input, output, debug) && |AxisLimitFields(limits)| == 4 && !SlotsAccepted(timeslots) ==>
              r.Err? && SlotsFailWith(timeslots, r.error)
    ensures (NamesAccepted(input, output, debug) && |AxisLimitFields(limits)| == 4 && SlotsAccepted(timeslots) &&
             ExpandAll(Split(antennas, ",")).Err?) ==> r == Err(ExpandAll(Split(antennas, ",")).error)
    ensures r.Err? ==> SelectionFailsWith(input, output, limits, timeslots, antennas, debug, r.error)
    ensures r.Ok? <==> SelectionAccepted(input, output, limits, timeslots, antennas, debug)
    ensures r.Ok? ==>
      var o := r.value;
      && Ok(o.debug) == String2Bool(debug)
      && Ok(o.msList) == Input2StrList(input)
      && o.fileformat == FileFormat(output)
      && o.limits == AxisLimitFields(limits)
      && |o.timeslots| == 3
      && (forall k :: 0 <= k < 3 ==> ParseInt(Split(timeslots, ",")[k]) == Some(o.timeslots[k]))
      && Ok(o.antennas) == ExpandAll(Split(antennas, ","))
  {
    var dbg := String2Bool(debug);
    if dbg.Err? {
      return Err(Raised(dbg.error));
    }
    var msList := Input2StrList(input);
    if msList.Err? {
      return Err(Raised(msList.error));
    }
    if |msList.value| == 0 {
      return Err(Exit(NoInput));
    }
    var fileformat := FileFormat(output);
    if fileformat !in Formats {
      return Err(Exit(UnknownExtension));
    }
    var axlimits := AxisLimitFields(limits);
    if |axlimits| != 4 {
      return Err(Exit(AxisLimits));
    }
    var slots := ParseTimeslots(timeslots);
    if slots.Err? {
      return Err(slots.error);
    }
    var ants := ParseAntennas(antennas);
    if ants.Err? {
      return Err(ants.error);
    }
    r := Ok(Selection(dbg.value, msList.value, fileformat, axlimits, slots.value, ants.value));
  }

  /** Lines 84-88: the switches and the marker size, converted in order; the
      first that does not convert raises. */
  function ParseSwitches(kilolambda: PyValue, markersize: PyValue, wideband: PyValue,
                         sameuv: PyValue, flagged: PyValue): (r: Result<Switches, PyError>)
    ensures r.Ok? <==> String2Bool(kilolambda).Ok? && IntOf(markersize).Ok? && String2Bool(wideband).Ok? &&
                       String2Bool(sameuv).Ok? && String2Bool(flagged).Ok?
    ensures String2Bool(kilolambda).Err? ==> r == Err(String2Bool(kilolambda).error)
    ensures String2Bool(kilolambda).Ok? && IntOf(markersize).Err? ==> r == Err(IntOf(markersize).error)
    ensures String2Bool(kilolambda).Ok? && IntOf(markersize).Ok? && String2Bool(wideband).Err? ==>
              r == Err(String2Bool(wideband).error)
    ensures (String2Bool(kilolambda).Ok? && IntOf(markersize).Ok? && String2Bool(wideband).Ok? &&
             String2Bool(sameuv).Err?) ==> r == Err(String2Bool(sameuv).error)
    ensures (String2Bool(kilolambda).Ok? && IntOf(markersize).Ok? && String2Bool(wideband).Ok? &&
             String2Bool(sameuv).Ok? && String2Bool(flagged).Err?) ==> r == Err(String2Bool(flagged).error)
    ensures r.Ok? ==>
      && Ok(r.value.kilolambda) == String2Bool(kilolambda)
      && Ok(r.value.markerSize) == IntOf(markersize)
      && Ok(r.value.wideband) == String2Bool(wideband)
      && Ok(r.value.sameuv) == String2Bool(sameuv)
      && Ok(r.value.flagged) == String2Bool(flagged)
  {
    var plotLambda :- String2Bool(kilolambda);
    var markerSize :- IntOf(markersize);
    var wide :- String2Bool(wideband);
    var same :- String2Bool(sameuv);
    var flags :- String2Bool(flagged);
    Ok(Switches(plotLambda, markerSize, wide, same, flags))
  }

  /** The parameter checks of `main`: the selection first, each of its
      failures stopping `main` as in `ParseSelection`, then the switches. */
  method ParseArguments(input: PyValue, output: string, limits: string, timeslots: string,
                        antennas: string, debug: PyValue, kilolambda: PyValue, markersize: PyValue,
                        wideband: PyValue, sameuv: PyValue, flagged: PyValue)
    returns (r: Result<Options, Failure>)
    ensures !SelectionAccepted(input, output, limits, timeslots, antennas, debug) ==>
              r.Err? && SelectionFailsWith(input, output, limits, timeslots, antennas, debug, r.error)
    ensures r.Ok? <==> SelectionAccepted(input, output, limits, timeslots, antennas, debug) &&
                       ParseSwitches(kilolambda, markersize, wideband, sameuv, flagged).Ok?
    ensures SelectionAccepted(input, output, limits, timeslots, antennas, debug) &&
            ParseSwitches(kilolambda, markersize, wideband, sameuv, flagged).Err? ==>
              r == Err(Raised(ParseSwitches(kilolambda, markersize, wideband, sameuv, flagged).error))
    ensures r.Ok? ==> Ok(r.value.switches) == ParseSwitches(kilolambda, markersize, wideband, sameuv, flagged)
    ensures r.Ok? ==>
      var o := r.value.selection;
      && Ok(o.debug) == String2Bool(debug)
      && Ok(o.msList) == Input2StrList(input)
      && o.fileformat == FileFormat(output)
      && o.limits == AxisLimitFields(limits)
      && |o.timeslots| == 3
      && (forall k :: 0 <= k < 3 ==> ParseInt(Split(timeslots, ",")[k]) == Some(o.timeslots[k]))
      && Ok(o.antennas) == ExpandAll(Split(antennas, ","))
  {
    var selection := ParseSelection(input, output, limits, timeslots, antennas, debug);
    if selection.Err? {
      return Err(selection.error);
    }
    var switches := ParseSwitches(kilolambda, markersize, wideband, sameuv, flagged);
    if switches.Err? {
      return Err(Raised(switches.error));
    }
    r := Ok(Options(selection.value, switches.value));
  }

  // ---------------------------------------------------------------------
  // Per Measurement Set, lines 110-157

  /** The sampling step: every `skip`-th time slot, or with `skip` 0 about a
      hundred points per baseline (`int(n / 100)`), and at least one. */
  function TimeSkip(skip: int, nTimeslots: real): (r: int)
    ensures skip != 0 ==> r == skip
    ensures skip == 0 && nTimeslots >= 100.0 ==> r >= 1 && r as real <= nTimeslots / 100.0 < r as real + 1.0
    ensures skip == 0 && nTimeslots < 100.0 ==> r == 1
    ensures skip >= 0 ==> r >= 1
  {
    if skip == 0 then
      if nTimeslots >= 100.0 then (nTimeslots / 100.0).Floor else 1
    else skip
  }

  /** `-1` as the only antenna stands for every antenna of the table. */
  function SelectAntennas(ants: seq<int>, nAntennas: nat): (r: seq<int>)
    ensures ants == [-1] ==> |r| == nAntennas && forall i :: 0 <= i < |r| ==> r[i] == i
    ensures ants != [-1] ==> r == ants
  {
    if |ants| == 1 && ants[0] == -1 then Range(0, nAntennas - 1) else ants
  }

  /** The baselines that get points, in table order: both antennas selected
      and distinct. */
  function Plotted(baselines: seq<(int, int)>, ants: seq<int>): seq<(int, int)>
    decreases |baselines|
  {
    if |baselines| == 0 then []
    else
      var b := baselines[|baselines| - 1];
      Plotted(baselines[..|baselines| - 1], ants)
      + (if b.0 in ants && b.1 in ants && b.0 != b.1 then [b] else [])
  }

  /** A baseline gets points exactly when both its antennas are selected and
      they differ; autocorrelations never do. */
  lemma {:induction false} PlottedMembers(baselines: seq<(int, int)>, ants: seq<int>, b: (int, int))
    ensures b in Plotted(baselines, ants) <==> b in baselines && b.0 in ants && b.1 in ants && b.0 != b.1
    decreases |baselines|
  {
    if |baselines| > 0 {
      var init := baselines[..|baselines| - 1];
      PlottedMembers(init, ants, b);
      assert baselines == init + [baselines[|baselines| - 1]];
    }
  }

  /** The baseline loop: skips unselected baselines and autocorrelations and
      counts the rest in `i`. */
  method SelectBaselines(baselines: seq<(int, int)>, ants: seq<int>) returns (selected: seq<(int, int)>, count: nat)
    ensures selected == Plotted(baselines, ants)
    ensures count == |selected|
  {
    selected := [];
    count := 0;
    var k := 0;
    while k < |baselines|
      invariant 0 <= k <= |baselines|
      invariant selected == Plotted(baselines[..k], ants)
      invariant count == |selected|
    {
      assert baselines[..k + 1][..k] == baselines[..k];
      var (ant1, ant2) := baselines[k];
      if ant1 !in ants || ant2 !in ants {
        k := k + 1;
        continue;
      }
      if ant1 == ant2 {
        k := k + 1;
        continue;
      }
      count := count + 1;
      selected := selected + [(ant1, ant2)];
      k := k + 1;
    }
    assert baselines[..k] == baselines;
  }

  /** What is read from one Measurement Set. */
  datatype MsInfo = MsInfo(nTimeslots: real, nAntennas: nat, baselines: seq<(int, int)>)

  /** What the loop does with one Measurement Set: `Reuse` when the saved uv
      points of the first one are replotted at its wavelengths and the pass
      ends there (`continue`, line 121); otherwise the sampling, end slot, antennas and baselines it selects,
      and whether the saved uv points stand in for this set's own. */
  datatype MsPlan =
    | Reuse
    | Select(reusedUv: bool, timeskip: int, endSlot: real, antennas: seq<int>, baselines: seq<(int, int)>)

  /** What carries over from one Measurement Set to the next: the count of
      sets gone through to the end, and `timeslots[2]` and `antToPlot`, which
      the loop reassigns. */
  datatype Sticky = Sticky(numPlotted: nat, endSlot: real, antennas: seq<int>)

  /** One pass of the loop. */
  function StepMs(st: Sticky, skip: int, sameuv: bool, flagged: bool, info: MsInfo): (Sticky, MsPlan) {
    if sameuv && st.numPlotted > 0 && !flagged then (st, Reuse)
    else
      var endSlot := if st.endSlot == 0.0 then info.nTimeslots else st.endSlot;
      var ants := SelectAntennas(st.antennas, info.nAntennas);
      (Sticky(st.numPlotted + 1, endSlot, ants),
       Select(sameuv && st.numPlotted > 0, TimeSkip(skip, info.nTimeslots), endSlot, ants,
              Plotted(info.baselines, ants)))
  }

  /** The passes over `infos`, in order, from state `st`. */
  function PlanAll(st: Sticky, skip: int, sameuv: bool, flagged: bool, infos: seq<MsInfo>): (r: seq<MsPlan>)
    ensures |r| == |infos|
    decreases |infos|
  {
    if |infos| == 0 then []
    else
      var step := StepMs(st, skip, sameuv, flagged, infos[0]);
      [step.1] + PlanAll(step.0, skip, sameuv, flagged, infos[1..])
  }

  /** One pass of the loop over the Measurement Sets, without the plotting:
      the plan for `info` and the state the next pass starts from. */
  method PlanOne(numPlotted: nat, endSlot: real, antToPlot: seq<int>, skip: int, sameuv: bool, flagged: bool,
                 info: MsInfo)
    returns (numPlotted': nat, endSlot': real, antToPlot': seq<int>, plan: MsPlan)
    ensures (Sticky(numPlotted', endSlot', antToPlot'), plan) ==
            StepMs(Sticky(numPlotted, endSlot, antToPlot), skip, sameuv, flagged, info)
  {
    numPlotted', endSlot', antToPlot' := numPlotted, endSlot, antToPlot;
    if sameuv && numPlotted > 0 && !flagged {
      return numPlotted', endSlot', antToPlot', Reuse;
    }
    var timeskip := TimeSkip(skip, info.nTimeslots);
    if endSlot' == 0.0 {
      endSlot' := info.nTimeslots;
    }
    if |antToPlot'| == 1 && antToPlot'[0] == -1 {
      antToPlot' := Range(0, info.nAntennas - 1);
    }
    var selected, count := SelectBaselines(info.baselines, antToPlot');
    plan := Select(sameuv && numPlotted > 0, timeskip, endSlot', antToPlot', selected);
    numPlotted' := numPlotted + 1;
  }

  /** One more pass of the loop keeps the plans made so far, followed by the
      passes still to come, equal to all the passes. */
  lemma PlanAllAt(st: Sticky, st': Sticky, plan: MsPlan, skip: int, sameuv: bool, flagged: bool,
                  infos: seq<MsInfo>, m: nat, plans: seq<MsPlan>, total: seq<MsPlan>)
    requires m < |infos|
    requires (st', plan) == StepMs(st, skip, sameuv, flagged, infos[m])
    requires plans + PlanAll(st, skip, sameuv, flagged, infos[m..]) == total
    ensures (plans + [plan]) + PlanAll(st', skip, sameuv, flagged, infos[m + 1..]) == total
  {
    assert infos[m..][0] == infos[m];
    assert infos[m..][1..] == infos[m + 1..];
    var rest := PlanAll(st', skip, sameuv, flagged, infos[m + 1..]);
    assert PlanAll(st, skip, sameuv, flagged, infos[m..]) == [plan] + rest;
    assert (plans + [plan]) + rest == plans + ([plan] + rest);
  }

  /** The loop over the Measurement Sets, without the plotting. */
  method PlanPlots(o: Options, infos: seq<MsInfo>) returns (plans: seq<MsPlan>)
    requires |o.selection.timeslots| == 3
    ensures plans == PlanAll(Sticky(0, o.selection.timeslots[2] as real, o.selection.antennas),
                             o.selection.timeslots[1], o.switches.sameuv, o.switches.flagged, infos)
  {
    var skip := o.selection.timeslots[1];
    var sameuv := o.switches.sameuv;
    var flagged := o.switches.flagged;
    var numPlotted := 0;
    var endSlot := o.selection.timeslots[2] as real;
    var antToPlot := o.selection.antennas;
    ghost var total := PlanAll(Sticky(numPlotted, endSlot, antToPlot), skip, sameuv, flagged, infos);
    assert infos[0..] == infos;
    plans := [];
    var m := 0;
    while m < |infos|
      invariant 0 <= m <= |infos|
      invariant plans + PlanAll(Sticky(numPlotted, endSlot, antToPlot), skip, sameuv, flagged, infos[m..]) == total
    {
      ghost var st := Sticky(numPlotted, endSlot, antToPlot);
      var plan;
      numPlotted, endSlot, antToPlot, plan := PlanOne(numPlotted, endSlot, antToPlot, skip, sameuv, flagged, infos[m]);
      PlanAllAt(st, Sticky(numPlotted, endSlot, antToPlot), plan, skip, sameuv, flagged, infos, m, plans, total);
      plans := plans + [plan];
      m := m + 1;
    }
    assert plans + [] == plans;
  }

  /** Without `sameuv` every Measurement Set is read and plotted with its own
      uv points. */
  lemma {:induction false} SeparateUvNeverReuses(st: Sticky, skip: int, flagged: bool, infos: seq<MsInfo>)
    ensures forall k :: 0 <= k < |infos| ==>
              PlanAll(st, skip, false, flagged, infos)[k].Select? &&
              !PlanAll(st, skip, false, flagged, infos)[k].reusedUv
    decreases |infos|
  {
    if |infos| > 0 {
      var (st', plan) := StepMs(st, skip, false, flagged, infos[0]);
      SeparateUvNeverReuses(st', skip, flagged, infos[1..]);
      var r := PlanAll(st, skip, false, flagged, infos);
      assert r == [plan] + PlanAll(st', skip, false, flagged, infos[1..]);
    }
  }

  /** A non-zero end slot is used for every Measurement Set, and so is an
      antenna list other than `[-1]`. */
  lemma {:induction false} StickySettingsKept(st: Sticky, skip: int, sameuv: bool, flagged: bool, infos: seq<MsInfo>)
    ensures forall k :: 0 <= k < |infos| && PlanAll(st, skip, sameuv, flagged, infos)[k].Select? ==>
              var p := PlanAll(st, skip, sameuv, flagged, infos)[k];
              && (st.endSlot != 0.0 ==> p.endSlot == st.endSlot)
              && (st.antennas != [-1] ==> p.antennas == st.antennas)
    decreases |infos|
  {
    if |infos| > 0 {
      var (st', plan) := StepMs(st, skip, sameuv, flagged, infos[0]);
      assert st.endSlot != 0.0 ==> st'.endSlot == st.endSlot;
      assert st.antennas != [-1] ==> st'.antennas == st.antennas;
      StickySettingsKept(st', skip, sameuv, flagged, infos[1..]);
      var r := PlanAll(st, skip, sameuv, flagged, infos);
      assert r == [plan] + PlanAll(st', skip, sameuv, flagged, infos[1..]);
    }
  }

  /** The first Measurement Set is always read in full. */
  lemma FirstIsRead(skip: int, endSlot: real, ants: seq<int>, sameuv: bool, flagged: bool, infos: seq<MsInfo>)
    requires |infos| > 0
    ensures var p := PlanAll(Sticky(0, endSlot, ants), skip, sameuv, flagged, infos)[0];
            p.Select? && !p.reusedUv && p.endSlot == (if endSlot == 0.0 then infos[0].nTimeslots else endSlot)
  {
  }

  /** Every selected baseline is a cross-correlation of two selected antennas. */
  lemma {:induction false} PlansOnlyCrossBaselines(st: Sticky, skip: int, sameuv: bool, flagged: bool, infos: seq<MsInfo>)
    ensures forall k :: 0 <= k < |infos| && PlanAll(st, skip, sameuv, flagged, infos)[k].Select? ==>
              var p := PlanAll(st, skip, sameuv, flagged, infos)[k];
              forall b :: b in p.baselines ==> b.0 in p.antennas && b.1 in p.antennas && b.0 != b.1
    decreases |infos|
  {
    if |infos| > 0 {
      var (st', plan) := StepMs(st, skip, sameuv, flagged, infos[0]);
      PlansOnlyCrossBaselines(st', skip, sameuv, flagged, infos[1..]);
      if plan.Select? {
        forall b | b in plan.baselines ensures b.0 in plan.antennas && b.1 in plan.antennas && b.0 != b.1 {
          PlottedMembers(infos[0].baselines, plan.antennas, b);
        }
      }
      var r := PlanAll(st, skip, sameuv, flagged, infos);
      assert r == [plan] + PlanAll(st', skip, sameuv, flagged, infos[1..]);
    }
  }
}

/** The `identifyBadAntennas` pipeline step: finds the antennas that DPPP's
    flag counter reports as fully flagged in every usable Measurement Set of
    a mapfile, and appends a deselection clause for each to a baseline filter.

    Running DPPP on a Measurement Set is an oracle `noteLines` giving the
    `NOTE` lines it prints. The process pool's `map` keeps the order of its
    inputs, so it is a sequential map here. */
module IdentifyBadAntennas {
  import opened Python
  import opened PyStrings
  import opened Mapfiles

  /** The characters `rstrip(')\n')` removes. */
  const TokenTrail: set<char> := {')', '\n'}

  /** The antenna named by one `NOTE` line: the text after its last `(`,
      trailing `)` and newlines removed. */
  function AntennaToken(line: string): string {
    RStrip(Last(Split(line, "(")), TokenTrail)
  }

  /** The token holds no `(` and ends in neither `)` nor a newline; it is
      the stripped text after the last `(`, or the whole stripped line when
      there is none. */
  lemma AntennaTokenShape(line: string)
    ensures '(' !in AntennaToken(line)
    ensures var t := AntennaToken(line); t == [] || t[|t| - 1] !in TokenTrail
    ensures '(' !in line ==> AntennaToken(line) == RStrip(line, TokenTrail)
    ensures '(' in line ==>
              exists pre, post :: line == pre + "(" + post && '(' !in post &&
                                  AntennaToken(line) == RStrip(post, TokenTrail)
  {
    var post := Last(Split(line, "("));
    LastPiece(line, '(');
    var t := RStrip(post, TokenTrail);
    assert t == post[..|t|];
    assert '(' !in t by {
      forall k | 0 <= k < |t| ensures t[k] != '(' {
        assert t[k] == post[k];
      }
    }
    if '(' in line {
      var pre :| line == pre + ['('] + post;
      assert line == pre + "(" + post;
    }
  }

  /** `find_flagged_antennas`: one token per `NOTE` line, in order. */
  function FlaggedAntennas(lines: seq<string>): (r: seq<string>)
    ensures |r| == |lines|
    ensures forall i :: 0 <= i < |r| ==> r[i] == AntennaToken(lines[i])
  {
    seq(|lines|, i requires 0 <= i < |lines| => AntennaToken(lines[i]))
  }

  /** `[item.file for item in data if not item.skip]` */
  function ActiveFiles(records: seq<DataProduct>): (r: seq<string>)
    ensures |r| <= |records|
    ensures |r| == 0 <==> forall k :: 0 <= k < |records| ==> records[k].skip
    ensures forall f :: f in r ==> exists k :: 0 <= k < |records| && !records[k].skip && records[k].file == f
  {
    if |records| == 0 then []
    else
      var rest := ActiveFiles(records[1..]);
      assert forall f :: f in rest ==> exists k :: 0 <= k < |records| && !records[k].skip && records[k].file == f by {
        forall f | f in rest
          ensures exists k :: 0 <= k < |records| && !records[k].skip && records[k].file == f
        {
          var j :| 0 <= j < |records[1..]| && !records[1..][j].skip && records[1..][j].file == f;
          assert records[j + 1] == records[1..][j];
        }
      }
      assert (forall k :: 1 <= k < |records| ==> records[k].skip) <==>
             (forall k :: 0 <= k < |records[1..]| ==> records[1..][k].skip) by {
        forall k | 0 <= k < |records[1..]| ensures records[1..][k] == records[k + 1] { }
      }
      (if records[0].skip then [] else [records[0].file]) + rest
  }

  /** Every unskipped file is examined: selection keeps the mapfile's order and
      its duplicates. */
  lemma {:induction false} ActiveFilesAppend(a: seq<DataProduct>, b: seq<DataProduct>)
    ensures ActiveFiles(a + b) == ActiveFiles(a) + ActiveFiles(b)
    decreases |a|
  {
    if |a| > 0 {
      assert (a + b)[1..] == a[1..] + b;
      ActiveFilesAppend(a[1..], b);
    } else {
      assert a + b == b;
    }
  }

  /** `set.intersection(s0, s1, ...)` */
  function IntersectAll(sets: seq<set<string>>): set<string>
    requires |sets| > 0
  {
    if |sets| == 1 then sets[0] else sets[0] * IntersectAll(sets[1..])
  }

  /** An element is in the intersection exactly when it is in every set. */
  lemma {:induction false} IntersectAllMembers(sets: seq<set<string>>, x: string)
    requires |sets| > 0
    ensures x in IntersectAll(sets) <==> forall k :: 0 <= k < |sets| ==> x in sets[k]
  {
    if |sets| > 1 {
      IntersectAllMembers(sets[1..], x);
      assert forall k :: 1 <= k < |sets| ==> sets[k] == sets[1..][k - 1];
    }
  }

  /** `map(set, flaggedants_list)` over the examined files. */
  function FlaggedSets(mslist: seq<string>, noteLines: string -> seq<string>): (r: seq<set<string>>)
    ensures |r| == |mslist|
  {
    seq(|mslist|, i requires 0 <= i < |mslist| => set a | a in FlaggedAntennas(noteLines(mslist[i])))
  }

  /** The antennas reported in every examined file. */
  function CommonFlagged(mslist: seq<string>, noteLines: string -> seq<string>): set<string>
    requires |mslist| > 0
  {
    IntersectAll(FlaggedSets(mslist, noteLines))
  }

  /** An antenna is common exactly when every file's report names it; one
      file that does not excludes it. */
  lemma CommonFlaggedMembers(mslist: seq<string>, noteLines: string -> seq<string>, ant: string)
    requires |mslist| > 0
    ensures ant in CommonFlagged(mslist, noteLines) <==>
              forall k :: 0 <= k < |mslist| ==> ant in FlaggedAntennas(noteLines(mslist[k]))
  {
    var sets := FlaggedSets(mslist, noteLines);
    IntersectAllMembers(sets, ant);
    forall k | 0 <= k < |mslist|
      ensures ant in sets[k] <==> ant in FlaggedAntennas(noteLines(mslist[k]))
    {
    }
  }

  /** The clause that deselects the stations of one antenna name. */
  function Clause(ant: string): string {
    ";!" + ant + "*"
  }

  /** The clauses of `order`, in order. */
  function Clauses(order: seq<string>): string {
    if |order| == 0 then "" else Clauses(order[..|order| - 1]) + Clause(order[|order| - 1])
  }

  /** The clause text has one `;` per antenna when names hold no `;`. */
  lemma {:induction false} ClausesCount(order: seq<string>)
    requires forall i :: 0 <= i < |order| ==> ';' !in order[i]
    ensures multiset(Clauses(order))[';'] == |order|
  {
    if |order| > 0 {
      var init := order[..|order| - 1];
      ClausesCount(init);
      var a := order[|order| - 1];
      assert multiset(Clause(a)) == multiset{';', '!'} + multiset(a) + multiset{'*'};
    }
  }

  /** The filter loop: appends one clause per antenna of `ants`, in the
      set's iteration order, which is left open. */
  method BuildFilter(filter: string, ants: set<string>) returns (r: string, order: seq<string>)
    ensures multiset(order) == multiset(ants)
    ensures r == filter + Clauses(order)
  {
    r := filter;
    order := [];
    var remaining := ants;
    while remaining != {}
      invariant remaining <= ants
      invariant multiset(order) + multiset(remaining) == multiset(ants)
      invariant r == filter + Clauses(order)
      decreases |remaining|
    {
      var a :| a in remaining;
      assert multiset(remaining) == multiset(remaining - {a}) + multiset{a};
      r := r + Clause(a);
      var before := order;
      order := order + [a];
      assert order[..|order| - 1] == before;
      remaining := remaining - {a};
    }
  }

  /** `plugin_main`: the filter for the Measurement Sets of `mapfile_in`
      that are not skipped. */
  method PluginMain(kwargs: Kwargs, load: Loader, noteLines: string -> seq<string>)
    returns (r: Result<string, PyError>)
    ensures "mapfile_in" !in kwargs ==> r == Err(KeyError("mapfile_in"))
    ensures "mapfile_in" in kwargs && "filter" !in kwargs ==> r == Err(KeyError("filter"))
    ensures "mapfile_in" in kwargs && "filter" in kwargs ==>
      match LoadMapfile(kwargs["mapfile_in"], load)
      case Err(e) => r == Err(e)
      case Ok(records) =>
        var mslist := ActiveFiles(records);
        if |mslist| == 0 then r == Err(ValueError)
        else
          var ants := CommonFlagged(mslist, noteLines);
          match kwargs["filter"]
          case PyStr(filter) =>
            exists order :: multiset(order) == multiset(ants) && r == Ok(filter + Clauses(order))
          case PyList(items) =>
            exists order :: multiset(order) == multiset(ants) &&
              var c := Clauses(order);
              r == Ok(Str(PyList(items + seq(|c|, i requires 0 <= i < |c| => PyStr([c[i]])))))
          case _ =>
            if ants == {} then r == Ok(Str(kwargs["filter"])) else r == Err(TypeError)
  {
    var mapfileIn :- Get(kwargs, "mapfile_in");
    var filter :- Get(kwargs, "filter");
    var records :- LoadMapfile(mapfileIn, load);
    var mslist := ActiveFiles(records);
    if |mslist| == 0 {
      return Err(ValueError);
    }
    var ants := CommonFlagged(mslist, noteLines);
    match filter
    case PyStr(s) =>
      var f, order := BuildFilter(s, ants);
      r := Ok(f);
    case PyList(items) =>
      // `list += str` extends the list by the string's characters
      var c, order := BuildFilter("", ants);
      assert c == Clauses(order);
      r := Ok(Str(PyList(items + seq(|c|, i requires 0 <= i < |c| => PyStr([c[i]])))));
    case _ =>
      if ants == {} {
        r := Ok(Str(filter));
      } else {
        r := Err(TypeError);
      }
  }
}

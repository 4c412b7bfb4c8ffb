/** `createRMh5parm.py`: the control logic of `main` before RMextract is
    called: the choice of the Measurement Set from the input list, the
    widening and padding of the time grid, and the policy by which IONEX
    files are fetched, day by day, with one fallback server.

    `PosTools.getMSinfo` and `PosTools.getIONEXtimerange` give the time range
    and the daily time grids; the model starts from their results. Times are
    `real` (no NaN, no rounding). A download is an oracle `fetch` that tells
    whether a request obtains its file (`-1` when it does not). */
module CreateRMh5parm {
  import opened Python
  import opened PyStrings

  // ---------------------------------------------------------------------
  // The Measurement Set list, lines 66-73

  /** `MSfiles.lstrip('[').rstrip(']').replace(' ','').replace("'","")` */
  function CleanMsList(msFiles: string): (r: string)
    ensures ' ' !in r && '\'' !in r
  {
    var spaced := RemoveChar(RStrip(LStrip(msFiles, {'['}), {']'}), ' ');
    var r := RemoveChar(spaced, '\'');
    assert multiset(r)[' '] == multiset(spaced)[' '] == 0;
    r
  }

  /** `mslist`: the cleaned text split on commas. */
  function ParseMsFiles(msFiles: string): (r: seq<string>)
    ensures |r| >= 1
  {
    Split(CleanMsList(msFiles), ",")
  }

  /** No entry holds a space, a quote or a comma, and the entries joined by
      commas give the cleaned text back. */
  lemma MsFilesPieces(msFiles: string)
    ensures forall p :: p in ParseMsFiles(msFiles) ==> ' ' !in p && '\'' !in p && ',' !in p
    ensures Join(",", ParseMsFiles(msFiles)) == CleanMsList(msFiles)
  {
    var t := CleanMsList(msFiles);
    SplitPiecesWithout(t, ",", ' ');
    SplitPiecesWithout(t, ",", '\'');
    SplitPiecesFree(t, ',');
    JoinSplit(t, ",");
  }

  /** Lines 68-73: the `ValueError` for an empty list cannot be raised,
      because a split always has a piece; `MS` is the first entry. */
  function SelectMs(msFiles: string): (r: Result<string, PyError>)
    ensures r == Ok(ParseMsFiles(msFiles)[0])
    ensures ' ' !in r.value && '\'' !in r.value && ',' !in r.value
  {
    var mslist := ParseMsFiles(msFiles);
    MsFilesPieces(msFiles);
    assert mslist[0] in mslist;
    if |mslist| == 0 then Err(ValueError) else Ok(mslist[0])
  }

  // ---------------------------------------------------------------------
  // The time grid, lines 76-85

  /** Lines 77-80: the range is widened by one time step at each end, in
      place; a range with fewer than two values raises before any change. */
  method WidenTimerange(timerange: array<real>, timestep: real) returns (failure: Option<PyError>)
    modifies timerange
    ensures failure.Some? <==> timerange.Length < 2
    ensures failure.Some? ==> failure.value == IndexError && timerange[..] == old(timerange[..])
    ensures failure.None? ==>
              && timerange[0] == old(timerange[0]) - timestep
              && timerange[1] == old(timerange[1]) + timestep
              && timerange[2..] == old(timerange[2..])
  {
    if timerange.Length < 2 {
      return Some(IndexError);
    }
    var startTime := timerange[0];
    var endTime := timerange[1];
    timerange[0] := startTime - timestep;
    timerange[1] := endTime + timestep;
    failure := None;
  }

  /** The last grid after padding: `end` appended when the grid is empty or
      ends before it. */
  function Padded(last: seq<real>, end: real): seq<real> {
    if |last| == 0 || last[|last| - 1] < end then last + [end] else last
  }

  /** A padded grid is not empty and reaches `end`: it ends there, or it is
      the old grid, which already did. It keeps the old grid as a prefix and
      adds at most one value, and padding it again changes nothing. */
  lemma PaddedReaches(last: seq<real>, end: real)
    ensures |Padded(last, end)| > 0 && Last(Padded(last, end)) >= end
    ensures Last(Padded(last, end)) == end || (|last| > 0 && Padded(last, end) == last)
    ensures Padded(last, end)[..|last|] == last && |Padded(last, end)| <= |last| + 1
    ensures Padded(Padded(last, end), end) == Padded(last, end)
  {
  }

  /** Lines 82-85: the last daily grid replaced by its padded copy; the
      other grids stay; with no grid at all `times[-1]` raises. */
  method PadLastGrid(times: array<seq<real>>, end: real) returns (failure: Option<PyError>)
    modifies times
    ensures failure.Some? <==> times.Length == 0
    ensures failure.Some? ==> failure.value == IndexError
    ensures times.Length > 0 ==>
              times[..] == old(times[..times.Length - 1]) + [Padded(old(times[times.Length - 1]), end)]
  {
    if times.Length == 0 {
      return Some(IndexError);
    }
    var n := times.Length;
    if |times[n - 1]| == 0 || times[n - 1][|times[n - 1]| - 1] < end {
      var timestmp := times[n - 1];
      timestmp := timestmp + [end];
      times[n - 1] := timestmp;
    }
    failure := None;
  }

  // ---------------------------------------------------------------------
  // IONEX download, lines 87-133

  const FallbackHost := "igsiono.uwm.edu.pl"
  const FallbackServer := "https://igsiono.uwm.edu.pl"
  const FallbackPrefix := "igrg"

  /** How a file is fetched: `getIONEXfile` over ftp, or
      `get_urllib_IONEXfile`, with or without the proxy settings. */
  datatype Fetcher = Ftp | Urllib(proxied: bool)

  /** One download attempt: for the day starting at `start`, from `server`,
      files named with `prefix`. */
  datatype Request = Request(fetcher: Fetcher, start: real, server: string, prefix: string)

  /** The download parameters of `main`. */
  datatype Config = Config(server: string, prefix: string, proxyServer: Option<string>)

  /** `proxyServer` is truthy: given and not empty. */
  predicate HasProxy(cfg: Config) {
    cfg.proxyServer.Some? && cfg.proxyServer.value != ""
  }

  /** Lines 90-111. */
  function FirstFetcher(cfg: Config): (r: Fetcher)
    ensures r == Ftp <==> !HasProxy(cfg) && !Contains(cfg.server, "http")
    ensures r.Urllib? ==> (r.proxied <==> HasProxy(cfg))
  {
    if !HasProxy(cfg) then
      if !Contains(cfg.server, "http") then Ftp else Urllib(false)
    else Urllib(true)
  }

  /** The requests made for one day, in order. */
  function DayRequests(start: real, cfg: Config, fetch: Request -> bool): seq<Request> {
    var first := Request(FirstFetcher(cfg), start, cfg.server, cfg.prefix);
    if !fetch(first) && !Contains(cfg.server, FallbackHost) then
      [first, Request(Urllib(HasProxy(cfg)), start, FallbackServer, FallbackPrefix)]
    else [first]
  }

  /** The day's data is obtained by its last request. */
  predicate DayOk(start: real, cfg: Config, fetch: Request -> bool) {
    var reqs := DayRequests(start, cfg, fetch);
    fetch(reqs[|reqs| - 1])
  }

  /** The first request uses the configured server and prefix; a failure is
      retried exactly once, over urllib, at the fast product server, unless
      the configured server is that one; the day is lost when the last
      request fails. */
  lemma DayPolicy(start: real, cfg: Config, fetch: Request -> bool)
    ensures var r := DayRequests(start, cfg, fetch);
            && 1 <= |r| <= 2
            && r[0] == Request(FirstFetcher(cfg), start, cfg.server, cfg.prefix)
            && (|r| == 2 <==> !fetch(r[0]) && !Contains(cfg.server, FallbackHost))
            && (|r| == 2 ==> r[1] == Request(Urllib(HasProxy(cfg)), start, FallbackServer, FallbackPrefix))
            && (DayOk(start, cfg, fetch) <==> fetch(r[0]) || (|r| == 2 && fetch(r[1])))
  {
  }

  /** How the download loop ends: every day obtained, `return -1` at a day
      that is not, or `IndexError` on an empty daily grid. */
  datatype Download = Complete | Unavailable | Raised(error: PyError)

  /** The requests made for `days`, taken in this order, and how the loop
      ends. */
  function Tried(days: seq<seq<real>>, cfg: Config, fetch: Request -> bool): (seq<Request>, Download)
    decreases |days|
  {
    if |days| == 0 then ([], Complete)
    else if |days[0]| == 0 then ([], Raised(IndexError))
    else
      var reqs := DayRequests(days[0][0], cfg, fetch);
      if !fetch(reqs[|reqs| - 1]) then (reqs, Unavailable)
      else
        var rest := Tried(days[1..], cfg, fetch);
        (reqs + rest.0, rest.1)
  }

  /** `times[::-1]` */
  function Reverse<T>(xs: seq<T>): (r: seq<T>)
    ensures |r| == |xs|
    ensures forall i :: 0 <= i < |xs| ==> r[i] == xs[|xs| - 1 - i]
  {
    seq(|xs|, i requires 0 <= i < |xs| => xs[|xs| - 1 - i])
  }

  /** The loop completes exactly when every day has a grid and its data is
      obtained. */
  lemma {:induction false} TriedComplete(days: seq<seq<real>>, cfg: Config, fetch: Request -> bool)
    ensures Tried(days, cfg, fetch).1 == Complete <==>
              forall k :: 0 <= k < |days| ==> |days[k]| > 0 && DayOk(days[k][0], cfg, fetch)
    decreases |days|
  {
    if |days| > 0 {
      TriedComplete(days[1..], cfg, fetch);
      assert forall k :: 1 <= k < |days| ==> days[k] == days[1..][k - 1];
    }
  }

  /** At the first day whose data is not obtained the loop returns: the
      requests are those of the days before it and of that day, and no later
      day is tried. */
  lemma {:induction false} TriedStops(days: seq<seq<real>>, cfg: Config, fetch: Request -> bool, k: nat)
    requires k < |days|
    requires forall j :: 0 <= j < k ==> |days[j]| > 0 && DayOk(days[j][0], cfg, fetch)
    requires |days[k]| > 0 && !DayOk(days[k][0], cfg, fetch)
    ensures Tried(days[..k], cfg, fetch).1 == Complete
    ensures Tried(days, cfg, fetch) == (Tried(days[..k], cfg, fetch).0 + DayRequests(days[k][0], cfg, fetch), Unavailable)
    decreases k
  {
    if k == 0 {
      assert days[..k] == [];
      assert Tried(days, cfg, fetch) == (DayRequests(days[0][0], cfg, fetch), Unavailable);
      assert [] + DayRequests(days[0][0], cfg, fetch) == DayRequests(days[0][0], cfg, fetch);
    } else {
      var tail := days[1..];
      assert forall j :: 0 <= j < k - 1 ==> tail[j] == days[j + 1];
      TriedStops(tail, cfg, fetch, k - 1);
      var front := days[..k];
      assert front[1..] == tail[..k - 1];
      assert front[0] == days[0];
      assert tail[k - 1] == days[k];
      var reqs := DayRequests(days[0][0], cfg, fetch);
      assert Tried(front, cfg, fetch) == (reqs + Tried(tail[..k - 1], cfg, fetch).0, Tried(tail[..k - 1], cfg, fetch).1);
      assert Tried(days, cfg, fetch) == (reqs + Tried(tail, cfg, fetch).0, Tried(tail, cfg, fetch).1);
      assert Tried(front, cfg, fetch).1 == Complete;
      assert Tried(days, cfg, fetch).1 == Unavailable;
      assert Tried(days, cfg, fetch).0 == Tried(front, cfg, fetch).0 + DayRequests(days[k][0], cfg, fetch);
    }
  }

  /** One pass of the loop, lines 88-133: the requested day's requests, and
      whether its data is obtained. */
  method FetchDay(starttime: real, cfg: Config, fetch: Request -> bool) returns (made: seq<Request>, ionexf: bool)
    ensures made == DayRequests(starttime, cfg, fetch)
    ensures ionexf == DayOk(starttime, cfg, fetch)
  {
    var first := Request(FirstFetcher(cfg), starttime, cfg.server, cfg.prefix);
    ionexf := fetch(first);
    made := [first];
    if !ionexf {
      if !Contains(cfg.server, FallbackHost) {
        var retry := Request(Urllib(HasProxy(cfg)), starttime, FallbackServer, FallbackPrefix);
        ionexf := fetch(retry);
        made := made + [retry];
      }
    }
  }

  /** The loop of lines 87-133 over `times[::-1]`, stopping with `return -1`
      at the first day whose data is not obtained. */
  method FetchAll(times: seq<seq<real>>, cfg: Config, fetch: Request -> bool)
    returns (requests: seq<Request>, outcome: Download)
    ensures (requests, outcome) == Tried(Reverse(times), cfg, fetch)
  {
    var days := Reverse(times);
    requests := [];
    var i := 0;
    assert days[i..] == days;
    while i < |days|
      invariant 0 <= i <= |days|
      invariant Tried(days, cfg, fetch).0 == requests + Tried(days[i..], cfg, fetch).0
      invariant Tried(days, cfg, fetch).1 == Tried(days[i..], cfg, fetch).1
    {
      var timeArray := days[i];
      assert days[i..][0] == timeArray && days[i..][1..] == days[i + 1..];
      if |timeArray| == 0 {
        assert requests + [] == requests;
        return requests, Raised(IndexError);
      }
      var made, ionexf := FetchDay(timeArray[0], cfg, fetch);
      assert Tried(days[i..], cfg, fetch) ==
             if !ionexf then (made, Unavailable)
             else (made + Tried(days[i + 1..], cfg, fetch).0, Tried(days[i + 1..], cfg, fetch).1);
      requests := requests + made;
      if !ionexf {
        return requests, Unavailable;
      }
      i := i + 1;
    }
    assert days[i..] == [];
    assert requests + [] == requests;
    outcome := Complete;
  }

  /** The latest day is tried first. */
  lemma LatestFirst(times: seq<seq<real>>, cfg: Config, fetch: Request -> bool)
    requires |times| > 0 && |times[|times| - 1]| > 0
    ensures var reqs := Tried(Reverse(times), cfg, fetch).0;
            |reqs| > 0 && reqs[0].start == times[|times| - 1][0]
  {
    var days := Reverse(times);
    assert days[0] == times[|times| - 1];
  }
}

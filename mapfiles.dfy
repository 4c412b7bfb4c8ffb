/** The mapfile data model shared by the pipeline plugins, and the list
    builders that turn plugin parameters into files and hosts.

    A mapfile is an ordered list of `(host, file, skip)` records. Its text
    format, and `DataMap.load`/`save` themselves, are not modelled: loading is
    an oracle that returns the records, reports that the path cannot be
    opened (`IOError`), or reports any other failure. */
module Mapfiles {
  import opened Python
  import opened PyStrings

  /** One mapfile record. The file is a path for ordinary mapfiles; the
      unflagged-fraction step also stores a number there. */
  datatype Product<T> = Product(host: string, file: T, skip: bool)

  type DataProduct = Product<string>

  /** What `DataMap.load(path)` does with a path. */
  datatype LoadOutcome = Loaded(records: seq<DataProduct>) | NotFound | Malformed

  /** `DataMap.load`, as an oracle over paths. */
  type Loader = string -> LoadOutcome

  const Brackets: set<char> := {'[', ']'}

  /** `[item.file for item in map_in]` */
  function FilesOf<T>(records: seq<Product<T>>): (r: seq<T>)
    ensures |r| == |records|
    ensures forall i :: 0 <= i < |r| ==> r[i] == records[i].file
  {
    seq(|records|, i requires 0 <= i < |records| => records[i].file)
  }

  /** `s.strip('[]').split(',')`: the pieces of a bracketed list, in order. */
  function SplitBracketList(s: string): (r: seq<string>)
    ensures |r| >= 1
  {
    Split(Strip(s, Brackets), ",")
  }

  /** The pieces of a bracketed list: one more than the commas between the
      brackets, free of commas, and joined by commas they give that text back. */
  lemma BracketListPieces(s: string)
    ensures |SplitBracketList(s)| == multiset(Strip(s, Brackets))[','] + 1
    ensures Join(",", SplitBracketList(s)) == Strip(s, Brackets)
    ensures forall p :: p in SplitBracketList(s) ==> ',' !in p
  {
    var t := Strip(s, Brackets);
    SplitCount(t, ',');
    JoinSplit(t, ",");
    SplitPiecesFree(t, ',');
  }

  /** `[f.strip() for f in pieces]` */
  function StripEach(pieces: seq<string>): (r: seq<string>)
    ensures |r| == |pieces|
  {
    seq(|pieces|, i requires 0 <= i < |pieces| => Strip(pieces[i], Whitespace))
  }

  /** The list parse of a bracketed string: brackets stripped from both ends,
      split on commas, each piece stripped of whitespace. */
  function ParseListString(s: string): (r: seq<string>)
    ensures |r| >= 1
  {
    StripEach(SplitBracketList(s))
  }

  /** The parse has one entry per comma-separated piece, each the whitespace
      strip of that piece, and no entry holds a comma. */
  lemma ParseListEntries(s: string)
    ensures |ParseListString(s)| == multiset(Strip(s, Brackets))[','] + 1
    ensures forall i :: 0 <= i < |ParseListString(s)| ==>
              ParseListString(s)[i] == Strip(SplitBracketList(s)[i], Whitespace)
    ensures forall i :: 0 <= i < |ParseListString(s)| ==> ',' !in ParseListString(s)[i]
  {
    var pieces := SplitBracketList(s);
    var r := ParseListString(s);
    BracketListPieces(s);
    forall i | 0 <= i < |r| ensures ',' !in r[i] {
      assert pieces[i] in pieces;
      StripInfix(pieces[i], Whitespace, ',');
    }
  }

  /** A character absent from `s` is absent from its strip. */
  lemma StripInfix(s: string, cs: set<char>, c: char)
    requires c !in s
    ensures c !in Strip(s, cs)
  {
    var r := Strip(s, cs);
    var i := LeadLen(s, cs);
    forall k | 0 <= k < |r| ensures r[k] != c {
      assert r[k] == s[i + k];
    }
  }

  // ---------------------------------------------------------------------
  // The file lists held by a loaded mapfile

  /** The concatenation of a list of lists, in order. */
  function Concat<T>(xss: seq<seq<T>>): seq<T> {
    if xss == [] then [] else Concat(xss[..|xss| - 1]) + Last(xss)
  }

  /** Concatenation distributes over appending lists of lists. */
  lemma {:induction false} ConcatAppend<T>(a: seq<seq<T>>, b: seq<seq<T>>)
    ensures Concat(a + b) == Concat(a) + Concat(b)
    decreases |b|
  {
    if b == [] {
      assert a + b == a;
    } else {
      var b' := b[..|b| - 1];
      ConcatAppend(a, b');
      assert (a + b)[..|a + b| - 1] == a + b';
    }
  }

  /** The pieces of each entry: `[f.strip('[]').split(',') for f in inFiles]`. */
  function PiecesOf(inFiles: seq<string>): (r: seq<seq<string>>)
    ensures |r| == |inFiles|
  {
    seq(|inFiles|, i requires 0 <= i < |inFiles| => SplitBracketList(inFiles[i]))
  }

  /** The in-order concatenation of the bracketed lists held by `inFiles`. */
  function FlattenLists(inFiles: seq<string>): seq<string> {
    Concat(PiecesOf(inFiles))
  }

  /** The pieces of `a + b` are the pieces of `a` followed by those of `b`. */
  lemma PiecesOfAppend(a: seq<string>, b: seq<string>)
    ensures PiecesOf(a + b) == PiecesOf(a) + PiecesOf(b)
  {
    var l, r := PiecesOf(a + b), PiecesOf(a) + PiecesOf(b);
    forall k | 0 <= k < |l| ensures l[k] == r[k] {
      if k < |a| {
        assert (a + b)[k] == a[k];
      } else {
        assert (a + b)[k] == b[k - |a|];
      }
    }
  }

  /** Flattening distributes over concatenation: each entry contributes its
      own pieces, in entry order. */
  lemma FlattenAppend(a: seq<string>, b: seq<string>)
    ensures FlattenLists(a + b) == FlattenLists(a) + FlattenLists(b)
  {
    PiecesOfAppend(a, b);
    ConcatAppend(PiecesOf(a), PiecesOf(b));
  }

  /** One entry flattens to its own pieces. */
  lemma FlattenOne(f: string)
    ensures FlattenLists([f]) == SplitBracketList(f)
  {
    var ps := PiecesOf([f]);
    assert ps[0] == SplitBracketList(f);
    assert ps[..|ps| - 1] == [];
    assert Concat(ps) == Concat(ps[..|ps| - 1]) + ps[0];
  }

  /** `files += f.strip('[]').split(',')` for each `f`, in order. */
  method ConcatFileLists(inFiles: seq<string>) returns (files: seq<string>)
    ensures files == FlattenLists(inFiles)
  {
    files := [];
    var i := 0;
    while i < |inFiles|
      invariant 0 <= i <= |inFiles|
      invariant files == FlattenLists(inFiles[..i])
    {
      assert inFiles[..i + 1] == inFiles[..i] + [inFiles[i]];
      FlattenAppend(inFiles[..i], [inFiles[i]]);
      FlattenOne(inFiles[i]);
      files := files + SplitBracketList(inFiles[i]);
      i := i + 1;
    }
    assert inFiles[..i] == inFiles;
  }

  /** A piece that `strip('[]').split(',')` leaves alone: no comma and no
      bracket at either end. */
  predicate PlainEntry(f: string) {
    ',' !in f && (f == [] || (f[0] !in Brackets && f[|f| - 1] !in Brackets))
  }

  /** A plain entry is a list of one piece: itself. */
  lemma PlainPieces(f: string)
    requires PlainEntry(f)
    ensures SplitBracketList(f) == [f]
  {
    StripKeeps(f, Brackets);
    SplitJoin([f], ',');
  }

  /** A plain entry with no whitespace at either end parses to itself alone. */
  lemma ParsePlain(f: string)
    requires PlainEntry(f) && (f == [] || (f[0] !in Whitespace && f[|f| - 1] !in Whitespace))
    ensures ParseListString(f) == [f]
  {
    assert SplitBracketList(f) == [f] by {
      PlainPieces(f);
    }
    StripEachOne(f);
    StripKeeps(f, Whitespace);
  }

  /** A one-element list is stripped element by element. */
  lemma StripEachOne(f: string)
    ensures StripEach([f]) == [Strip(f, Whitespace)]
  {
    var r := StripEach([f]);
    assert r[0] == Strip(f, Whitespace);
  }

  /** Concatenating one-element lists gives the elements back. */
  lemma {:induction false} ConcatSingletons<T>(xs: seq<T>)
    ensures Concat(seq(|xs|, i requires 0 <= i < |xs| => [xs[i]])) == xs
    decreases |xs|
  {
    if xs != [] {
      var init := xs[..|xs| - 1];
      ConcatSingletons(init);
      var whole := seq(|xs|, i requires 0 <= i < |xs| => [xs[i]]);
      assert whole[..|whole| - 1] == seq(|init|, i requires 0 <= i < |init| => [init[i]]);
      assert xs == init + [Last(xs)];
    }
  }

  /** A mapfile whose entries are single plain paths flattens to its files. */
  lemma FlattenPlain(inFiles: seq<string>)
    requires forall k :: 0 <= k < |inFiles| ==> PlainEntry(inFiles[k])
    ensures FlattenLists(inFiles) == inFiles
  {
    forall k | 0 <= k < |inFiles| ensures PiecesOf(inFiles)[k] == [inFiles[k]] {
      PlainPieces(inFiles[k]);
    }
    assert PiecesOf(inFiles) == seq(|inFiles|, i requires 0 <= i < |inFiles| => [inFiles[i]]);
    ConcatSingletons(inFiles);
  }

  // ---------------------------------------------------------------------
  // Hosts

  function Max(a: int, b: int): int {
    if a < b then b else a
  }

  /** Every entry of `hs` is the host at its position modulo the host count. */
  ghost predicate Cyclic(hs: seq<string>, hosts: seq<string>)
    requires |hosts| > 0
  {
    forall k :: 0 <= k < |hs| ==> hs[k] == hosts[k % |hosts|]
  }

  /** Appending `hs[i]` at position `|hosts| + i` keeps the cycle. */
  lemma CyclicAppend(hs: seq<string>, hosts: seq<string>, i: nat)
    requires |hosts| > 0 && Cyclic(hs, hosts) && |hs| == |hosts| + i
    ensures Cyclic(hs + [hs[i]], hosts)
  {
    var m := |hosts|;
    ModShift(i, m);
    assert (hs + [hs[i]])[m + i] == hosts[(m + i) % m];
  }

  /** `for i in range(n - len(hosts)): hosts.append(hosts[i])`: the host list
      extended cyclically to `n` entries. An empty host list cannot be
      extended and raises `IndexError`; a list already long enough is kept. */
  method ExtendHosts(hosts: seq<string>, n: nat) returns (r: Result<seq<string>, PyError>)
    ensures r.Err? <==> |hosts| == 0 && n > 0
    ensures r.Err? ==> r.error == IndexError
    ensures r.Ok? ==> |r.value| == Max(|hosts|, n) && r.value[..|hosts|] == hosts
    ensures r.Ok? ==> forall i :: 0 <= i < |r.value| ==> r.value[i] == hosts[i % |hosts|]
  {
    var hs := hosts;
    var i := 0;
    if |hosts| > 0 {
      forall k | 0 <= k < |hs| ensures hs[k] == hosts[k % |hosts|] {
        assert k % |hosts| == k;
      }
    }
    while i < n - |hosts|
      invariant 0 <= i && (i <= n - |hosts| || i == 0)
      invariant |hosts| == 0 ==> i == 0
      invariant |hs| == |hosts| + i && hs[..|hosts|] == hosts
      invariant |hosts| > 0 ==> Cyclic(hs, hosts)
    {
      if i >= |hs| {
        return Err(IndexError);
      }
      CyclicAppend(hs, hosts, i);
      hs := hs + [hs[i]];
      i := i + 1;
    }
    r := Ok(hs);
  }

  /** Helper arithmetic for the cyclic index. */
  lemma {:induction false} MulAtLeast(d: int, n: int)
    requires d >= 1 && n > 0
    ensures d * n >= n
    decreases d
  {
    if d > 1 {
      MulAtLeast(d - 1, n);
      assert d * n == (d - 1) * n + n;
    }
  }

  lemma ModUnique(a: int, n: int, q: int, r: int)
    requires n > 0 && 0 <= r < n && a == q * n + r
    ensures a % n == r
  {
    var q', r' := a / n, a % n;
    assert a == q' * n + r';
    assert (q - q') * n == q * n - q' * n;
    if q > q' {
      MulAtLeast(q - q', n);
    } else if q < q' {
      assert (q' - q) * n == q' * n - q * n;
      MulAtLeast(q' - q, n);
    }
  }

  lemma ModShift(i: nat, n: nat)
    requires n > 0
    ensures (n + i) % n == i % n
  {
    var q, r := i / n, i % n;
    assert n + i == (q + 1) * n + r;
    ModUnique(n + i, n, q + 1, r);
  }

  /** `zip(hosts, files)`: pairs by position, as many as the shorter list. */
  function Zip<A, B>(a: seq<A>, b: seq<B>): (r: seq<(A, B)>)
    ensures |r| == if |a| < |b| then |a| else |b|
    ensures forall i :: 0 <= i < |r| ==> r[i] == (a[i], b[i])
  {
    seq(if |a| < |b| then |a| else |b|, i requires 0 <= i < |a| && i < |b| => (a[i], b[i]))
  }

  // ---------------------------------------------------------------------
  // Paths

  /** `os.path.join(directory, name)` (POSIX): an absolute `name` replaces the
      directory; otherwise a `/` is inserted unless the directory is empty or
      already ends with one. */
  function PathJoin(directory: string, name: string): (r: string)
    ensures EndsWith(r, name)
    ensures |name| > 0 && name[0] == '/' ==> r == name
    ensures !(|name| > 0 && name[0] == '/') ==> |directory| + |name| <= |r| && r[..|directory|] == directory
    ensures !(|name| > 0 && name[0] == '/') && directory != [] ==> r[|r| - |name| - 1] == '/'
    ensures |r| <= |directory| + 1 + |name|
    ensures !IsAbsolute(name) && directory != [] && directory[|directory| - 1] == '/' ==> r == directory + name
    ensures !IsAbsolute(name) && directory == [] ==> r == name
  {
    if |name| > 0 && name[0] == '/' then name
    else if directory == [] || directory[|directory| - 1] == '/' then directory + name
    else directory + "/" + name
  }

  predicate IsAbsolute(name: string) {
    |name| > 0 && name[0] == '/'
  }

  /** `os.path.join` on parameter values, as Python 2's `posixpath.join`
      evaluates it: a non-string name has no `startswith`, and a non-string
      directory no `endswith` unless an absolute name replaces it first. */
  function JoinValues(directory: PyValue, name: PyValue): (r: Result<string, PyError>)
    ensures r.Ok? <==> name.PyStr? && (directory.PyStr? || IsAbsolute(name.s))
    ensures r.Ok? && directory.PyStr? ==> r.value == PathJoin(directory.s, name.s)
    ensures r.Ok? && !directory.PyStr? ==> r.value == name.s
    ensures r.Err? ==> r.error == AttributeError
  {
    if !name.PyStr? then Err(AttributeError)
    else if IsAbsolute(name.s) then Ok(name.s)
    else if !directory.PyStr? then Err(AttributeError)
    else Ok(PathJoin(directory.s, name.s))
  }

  /** `DataMap.load` on a parameter value: the records, `TypeError` from
      `open` for a path that is not a string, `IOError` for a path that cannot
      be opened, and any other failure as a load error. */
  function LoadMapfile(v: PyValue, load: Loader): (r: Result<seq<DataProduct>, PyError>)
    ensures r.Ok? <==> v.PyStr? && load(v.s).Loaded?
    ensures r.Ok? ==> r.value == load(v.s).records
    ensures r.Err? ==> r.error == (if !v.PyStr? then TypeError else if load(v.s).NotFound? then IOError(v.s) else MapfileFormatError)
  {
    if !v.PyStr? then Err(TypeError)
    else
      match load(v.s)
      case Loaded(records) => Ok(records)
      case NotFound => Err(IOError(v.s))
      case Malformed => Err(MapfileFormatError)
  }
}

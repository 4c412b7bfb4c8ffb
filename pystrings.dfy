/** The Python `str` operations the pipeline steps are built from, on `seq<char>`.

    Each function follows CPython's definition: `strip(chars)` removes the
    longest prefix and suffix made of `chars`; `split(sep)` scans left to
    right for non-overlapping occurrences of `sep` and always yields at least
    one piece; `sep.join(parts)` is its inverse. */
module PyStrings {
  import opened Python

  /** The characters `str.strip()` removes when called without arguments. */
  const Whitespace: set<char> := {' ', '\t', '\n', '\r', '\U{B}', '\U{C}'}

  // ---------------------------------------------------------------------
  // strip, lstrip, rstrip

  /** The length of the longest prefix of `s` made of characters in `cs`. */
  function LeadLen(s: string, cs: set<char>): (k: nat)
    ensures k <= |s|
    ensures forall i :: 0 <= i < k ==> s[i] in cs
    ensures k < |s| ==> s[k] !in cs
  {
    if |s| > 0 && s[0] in cs then 1 + LeadLen(s[1..], cs) else 0
  }

  /** The length of the longest suffix of `s` made of characters in `cs`. */
  function TrailLen(s: string, cs: set<char>): (k: nat)
    ensures k <= |s|
    ensures forall i :: |s| - k <= i < |s| ==> s[i] in cs
    ensures k < |s| ==> s[|s| - 1 - k] !in cs
  {
    if |s| > 0 && s[|s| - 1] in cs then 1 + TrailLen(s[..|s| - 1], cs) else 0
  }

  /** `s.lstrip(cs)` */
  function LStrip(s: string, cs: set<char>): (r: string)
    ensures |r| <= |s| && r == s[|s| - |r|..]
    ensures forall i :: 0 <= i < |s| - |r| ==> s[i] in cs
    ensures r == [] || r[0] !in cs
  {
    s[LeadLen(s, cs)..]
  }

  /** `s.rstrip(cs)` */
  function RStrip(s: string, cs: set<char>): (r: string)
    ensures |r| <= |s| && r == s[..|r|]
    ensures forall i :: |r| <= i < |s| ==> s[i] in cs
    ensures r == [] || r[|r| - 1] !in cs
  {
    s[..|s| - TrailLen(s, cs)]
  }

  /** `r` is `s` with a prefix `s[..i]` and a suffix removed, both made of
      characters in `cs`, and `r` neither starts nor ends with one of them. */
  ghost predicate StrippedAt(s: string, r: string, cs: set<char>, i: int) {
    && 0 <= i && i + |r| <= |s| && s[i..i + |r|] == r
    && (forall k :: 0 <= k < i ==> s[k] in cs)
    && (forall k :: i + |r| <= k < |s| ==> s[k] in cs)
    && (r == [] || (r[0] !in cs && r[|r| - 1] !in cs))
  }

  /** `s.strip(cs)` */
  function Strip(s: string, cs: set<char>): (r: string)
    ensures StrippedAt(s, r, cs, LeadLen(s, cs))
  {
    var t := LStrip(s, cs);
    assert s[LeadLen(s, cs)..][..|RStrip(t, cs)|] == s[LeadLen(s, cs)..LeadLen(s, cs) + |RStrip(t, cs)|];
    RStrip(t, cs)
  }

  /** A string whose first and last characters are kept is its own strip. */
  lemma StripKeeps(s: string, cs: set<char>)
    requires s == [] || (s[0] !in cs && s[|s| - 1] !in cs)
    ensures Strip(s, cs) == s
  {
  }

  // ---------------------------------------------------------------------
  // find, split, join

  /** `sep` occurs in `s` at index `i`. */
  predicate OccursAt(s: string, sep: string, i: int) {
    0 <= i && i + |sep| <= |s| && s[i..i + |sep|] == sep
  }

  /** `s.find(sep, i)`, with `None` for Python's -1. */
  function FindFrom(s: string, sep: string, i: nat): (r: Option<nat>)
    requires |sep| > 0
    ensures r.Some? ==> i <= r.value && OccursAt(s, sep, r.value)
    ensures r.Some? ==> forall j :: i <= j < r.value ==> !OccursAt(s, sep, j)
    ensures r.None? ==> forall j :: i <= j ==> !OccursAt(s, sep, j)
    decreases |s| - i
  {
    if i + |sep| > |s| then None
    else if s[i..i + |sep|] == sep then Some(i)
    else FindFrom(s, sep, i + 1)
  }

  /** The scan from `i` stops at `k` when `sep` occurs at `k` and nowhere in between. */
  lemma {:induction false} FindReaches(s: string, sep: string, i: nat, k: nat)
    requires |sep| > 0 && i <= k && OccursAt(s, sep, k)
    requires forall j :: i <= j < k ==> !OccursAt(s, sep, j)
    ensures FindFrom(s, sep, i) == Some(k)
    decreases k - i
  {
    if i < k {
      assert !OccursAt(s, sep, i);
      FindReaches(s, sep, i + 1, k);
    }
  }

  /** `s.find(sep)` */
  function Find(s: string, sep: string): Option<nat>
    requires |sep| > 0
  {
    FindFrom(s, sep, 0)
  }

  /** `sub in s` */
  predicate Contains(s: string, sub: string)
    requires |sub| > 0
  {
    Find(s, sub).Some?
  }

  /** `s.split(sep)` */
  function Split(s: string, sep: string): (r: seq<string>)
    requires |sep| > 0
    ensures |r| >= 1
    decreases |s|
  {
    match Find(s, sep)
    case None => [s]
    case Some(i) => [s[..i]] + Split(s[i + |sep|..], sep)
  }

  /** `sep.join(parts)` */
  function Join(sep: string, parts: seq<string>): string {
    if |parts| == 0 then ""
    else if |parts| == 1 then parts[0]
    else parts[0] + sep + Join(sep, parts[1..])
  }

  /** The last element of a list, `xs[-1]`. */
  function Last<T>(xs: seq<T>): T
    requires |xs| > 0
  {
    xs[|xs| - 1]
  }

  /** Joining the pieces of a split with the same separator gives the string back. */
  lemma {:induction false} JoinSplit(s: string, sep: string)
    requires |sep| > 0
    ensures Join(sep, Split(s, sep)) == s
    decreases |s|
  {
    match Find(s, sep)
    case None =>
    case Some(i) =>
      var rest := s[i + |sep|..];
      var ps := Split(rest, sep);
      JoinSplit(rest, sep);
      var parts := [s[..i]] + ps;
      assert Split(s, sep) == parts;
      assert parts[1..] == ps;
      assert Join(sep, parts) == s[..i] + sep + Join(sep, ps);
      assert s[i..i + |sep|] == sep;
      assert s == s[..i] + s[i..i + |sep|] + rest;
  }

  /** No piece of a split on one character contains that character. */
  lemma {:induction false} SplitPiecesFree(s: string, c: char)
    ensures forall p :: p in Split(s, [c]) ==> c !in p
    decreases |s|
  {
    match Find(s, [c])
    case None =>
      forall j | 0 <= j < |s| ensures s[j] != c {
        assert !OccursAt(s, [c], j);
      }
    case Some(i) =>
      SplitPiecesFree(s[i + 1..], c);
      forall j | 0 <= j < i ensures s[j] != c {
        assert !OccursAt(s, [c], j);
      }
  }

  /** A character absent from `s` is absent from every piece of its split. */
  lemma {:induction false} SplitPiecesWithout(s: string, sep: string, x: char)
    requires |sep| > 0 && x !in s
    ensures forall p :: p in Split(s, sep) ==> x !in p
    decreases |s|
  {
    match Find(s, sep)
    case None =>
    case Some(i) =>
      var rest := s[i + |sep|..];
      assert forall k :: 0 <= k < |rest| ==> rest[k] == s[i + |sep| + k];
      assert forall k :: 0 <= k < i ==> s[..i][k] == s[k];
      SplitPiecesWithout(rest, sep, x);
  }

  /** Splitting on one character yields one more piece than there are
      occurrences of that character. */
  lemma {:induction false} SplitCount(s: string, c: char)
    ensures |Split(s, [c])| == multiset(s)[c] + 1
    decreases |s|
  {
    match Find(s, [c])
    case None =>
      forall j | 0 <= j < |s| ensures s[j] != c {
        assert !OccursAt(s, [c], j);
      }
      assert c !in multiset(s);
    case Some(i) =>
      SplitCount(s[i + 1..], c);
      SplitPiecesFree(s, c);
      assert s[..i] in Split(s, [c]);
      assert s == s[..i] + [c] + s[i + 1..];
      assert multiset(s) == multiset(s[..i]) + multiset([c]) + multiset(s[i + 1..]);
  }

  /** Splitting a join of separator-free pieces gives the pieces back. */
  lemma {:induction false} SplitJoin(parts: seq<string>, c: char)
    requires |parts| >= 1
    requires forall k :: 0 <= k < |parts| ==> c !in parts[k]
    ensures Split(Join([c], parts), [c]) == parts
    decreases |parts|
  {
    var s := Join([c], parts);
    var p := parts[0];
    forall j | 0 <= j < |p| ensures !OccursAt(s, [c], j) {
      assert s[j] == p[j];
    }
    if |parts| == 1 {
      forall j | 0 <= j ensures !OccursAt(s, [c], j) { }
      assert Find(s, [c]).None?;
    } else {
      var rest := Join([c], parts[1..]);
      assert s == p + [c] + rest;
      assert s[|p|..|p| + 1] == [c];
      assert OccursAt(s, [c], |p|);
      assert FindFrom(s, [c], 0) == Some(|p|) by {
        FindReaches(s, [c], 0, |p|);
      }
      assert s[..|p|] == p;
      assert s[|p| + 1..] == rest;
      SplitJoin(parts[1..], c);
      assert Split(s, [c]) == [p] + Split(rest, [c]);
    }
  }

  /** A join of two or more parts ends with the separator and the last part. */
  lemma {:induction false} JoinSnoc(sep: string, parts: seq<string>)
    requires |parts| >= 2
    ensures Join(sep, parts) == Join(sep, parts[..|parts| - 1]) + sep + Last(parts)
    decreases |parts|
  {
    if |parts| > 2 {
      JoinSnoc(sep, parts[1..]);
      assert parts[1..][..|parts| - 2] == parts[..|parts| - 1][1..];
    }
  }

  /** The last piece of `s.split(c)` is the text after the last `c` in `s`:
      it holds no `c`, and it is all of `s` when `s` holds no `c`. */
  lemma LastPiece(s: string, c: char)
    ensures c !in Last(Split(s, [c]))
    ensures c !in s ==> Last(Split(s, [c])) == s
    ensures c in s ==> exists pre :: s == pre + [c] + Last(Split(s, [c]))
  {
    var ps := Split(s, [c]);
    SplitPiecesFree(s, c);
    assert Last(ps) in ps;
    SplitCount(s, c);
    JoinSplit(s, [c]);
    if c !in s {
      assert multiset(s)[c] == 0;
      assert |ps| == 1;
    } else {
      assert multiset(s)[c] > 0;
      JoinSnoc([c], ps);
      var pre := Join([c], ps[..|ps| - 1]);
      assert s == pre + [c] + Last(ps);
    }
  }

  /** An occurrence in a suffix `s[off..]` is an occurrence in `s`, shifted by `off`. */
  lemma OccursInSuffix(s: string, sep: string, off: nat, j: nat)
    requires off <= |s|
    ensures OccursAt(s[off..], sep, j) <==> OccursAt(s, sep, off + j)
  {
    if off + j + |sep| <= |s| {
      assert s[off..][j..j + |sep|] == s[off + j..off + j + |sep|];
    }
  }

  /** An occurrence at `a` makes `find` succeed at or before `a`. */
  lemma FoundBy(s: string, sep: string, a: nat)
    requires |sep| > 0 && OccursAt(s, sep, a)
    ensures Find(s, sep).Some? && Find(s, sep).value <= a
  {
  }

  /** A successful `find` cuts off the first piece of the split. */
  lemma SplitAtFind(s: string, sep: string)
    requires |sep| > 0 && Find(s, sep).Some?
    ensures var i := Find(s, sep).value;
            Split(s, sep) == [s[..i]] + Split(s[i + |sep|..], sep)
  {
  }

  /** A split into two or more pieces comes from an occurrence of the
      separator. */
  lemma SplitTwoOccurs(x: string, sep: string) returns (j: nat)
    requires |sep| > 0 && |Split(x, sep)| >= 2
    ensures OccursAt(x, sep, j)
  {
    assert Find(x, sep).Some?;
    j := Find(x, sep).value;
  }

  /** An occurrence at or after `off` splits the suffix from `off` into two or
      more pieces. */
  lemma SuffixSplitsTwo(s: string, sep: string, off: nat, b: nat)
    requires |sep| > 0 && OccursAt(s, sep, b) && off <= b
    ensures |Split(s[off..], sep)| >= 2
  {
    OccursInSuffix(s, sep, off, b - off);
    FoundBy(s[off..], sep, b - off);
  }

  /** A split into three or more pieces comes from two occurrences of the
      separator that do not overlap. */
  lemma SplitThreeOccurs(s: string, sep: string) returns (a: nat, b: nat)
    requires |sep| > 0 && |Split(s, sep)| >= 3
    ensures OccursAt(s, sep, a) && OccursAt(s, sep, b) && a + |sep| <= b
  {
    assert Find(s, sep).Some?;
    a := Find(s, sep).value;
    var off := a + |sep|;
    SplitAtFind(s, sep);
    var j := SplitTwoOccurs(s[off..], sep);
    OccursInSuffix(s, sep, off, j);
    b := off + j;
  }

  /** Two occurrences of the separator that do not overlap split the text
      into three or more pieces. */
  lemma OccursSplitThree(s: string, sep: string, a: nat, b: nat)
    requires |sep| > 0 && OccursAt(s, sep, a) && OccursAt(s, sep, b) && a + |sep| <= b
    ensures |Split(s, sep)| >= 3
  {
    FoundBy(s, sep, a);
    SuffixSplitsTwo(s, sep, Find(s, sep).value + |sep|, b);
    SplitAtFind(s, sep);
  }

  /** A split has two or more separators' worth of pieces exactly when the
      separator occurs twice without overlap. */
  lemma SplitAtLeastThree(s: string, sep: string)
    requires |sep| > 0
    ensures |Split(s, sep)| >= 3 <==>
            exists i, j :: OccursAt(s, sep, i) && OccursAt(s, sep, j) && i + |sep| <= j
  {
    if |Split(s, sep)| >= 3 {
      var a, b := SplitThreeOccurs(s, sep);
    }
    forall a, b | OccursAt(s, sep, a) && OccursAt(s, sep, b) && a + |sep| <= b
      ensures |Split(s, sep)| >= 3
    {
      OccursSplitThree(s, sep, a, b);
    }
  }

  /** `s` has no occurrence of `sep` exactly when `s.split(sep)` is `[s]`. */
  lemma SplitSingle(s: string, sep: string)
    requires |sep| > 0
    ensures |Split(s, sep)| == 1 <==> forall j :: !OccursAt(s, sep, j)
    ensures |Split(s, sep)| == 1 ==> Split(s, sep) == [s]
  {
    match Find(s, sep)
    case None =>
    case Some(i) =>
      assert |Split(s[i + |sep|..], sep)| >= 1;
  }

  // ---------------------------------------------------------------------
  // case, suffix and replacement

  /** ASCII upper case of one character. */
  function UpperChar(c: char): char {
    if 'a' <= c <= 'z' then (c as int - 32) as char else c
  }

  /** ASCII lower case of one character. */
  function LowerChar(c: char): char {
    if 'A' <= c <= 'Z' then (c as int + 32) as char else c
  }

  /** `s.upper()` */
  function Upper(s: string): string {
    seq(|s|, i requires 0 <= i < |s| => UpperChar(s[i]))
  }

  /** `s.lower()` */
  function Lower(s: string): string {
    seq(|s|, i requires 0 <= i < |s| => LowerChar(s[i]))
  }

  /** `s` spells the upper-case ASCII word `w` in any mixture of cases. */
  ghost predicate SpellsIgnoringCase(s: string, w: string) {
    |s| == |w| && forall i :: 0 <= i < |s| ==> s[i] == w[i] || s[i] == LowerChar(w[i])
  }

  /** Comparing `s.upper()` with an upper-case word accepts that word in any
      case and nothing else. */
  lemma UpperMatches(s: string, w: string)
    requires forall i :: 0 <= i < |w| ==> 'A' <= w[i] <= 'Z'
    ensures Upper(s) == w <==> SpellsIgnoringCase(s, w)
  {
    if Upper(s) == w {
      forall i | 0 <= i < |s| ensures s[i] == w[i] || s[i] == LowerChar(w[i]) {
        assert UpperChar(s[i]) == w[i];
      }
    }
    if SpellsIgnoringCase(s, w) {
      forall i | 0 <= i < |s| ensures Upper(s)[i] == w[i] { }
    }
  }

  /** `s.endswith(suffix)` */
  predicate EndsWith(s: string, suffix: string) {
    |suffix| <= |s| && s[|s| - |suffix|..] == suffix
  }

  /** `s.replace(c, '')` for a one-character `c`. */
  function RemoveChar(s: string, c: char): (r: string)
    ensures c !in r
    ensures multiset(r) == multiset(s)[c := 0]
  {
    if s == [] then []
    else
      assert s == [s[0]] + s[1..];
      (if s[0] == c then [] else [s[0]]) + RemoveChar(s[1..], c)
  }

  // ---------------------------------------------------------------------
  // integers and str()

  function DigitChar(d: nat): char
    requires d < 10
  {
    ('0' as int + d) as char
  }

  predicate IsDigits(t: string) {
    |t| > 0 && forall i :: 0 <= i < |t| ==> '0' <= t[i] <= '9'
  }

  /** The value of a decimal digit string. */
  function DigitsValue(t: string): nat
    requires forall i :: 0 <= i < |t| ==> '0' <= t[i] <= '9'
  {
    if |t| == 0 then 0 else DigitsValue(t[..|t| - 1]) * 10 + (t[|t| - 1] as int - '0' as int)
  }

  /** The decimal text of a natural number, without leading zeros. */
  function NatToString(n: nat): (r: string)
    ensures IsDigits(r)
    ensures DigitsValue(r) == n
    ensures r[0] == '0' ==> n == 0
  {
    if n < 10 then [DigitChar(n)]
    else
      var r := NatToString(n / 10) + [DigitChar(n % 10)];
      assert r[..|r| - 1] == NatToString(n / 10);
      r
  }

  /** `str(i)` for a Python int. */
  function IntToString(i: int): string {
    if i < 0 then "-" + NatToString(-i) else NatToString(i)
  }

  /** The value of an optionally signed digit string. As in Python 2's
      `int()`, whitespace may follow the sign: `PyOS_strtol` hands the text
      after the sign to `PyOS_strtoul`, which skips whitespace again. */
  function SignedValue(t: string): Option<int> {
    if |t| > 0 && (t[0] == '-' || t[0] == '+') then
      var digits := LStrip(t[1..], Whitespace);
      if IsDigits(digits) then
        var v: int := DigitsValue(digits);
        Some(if t[0] == '-' then -v else v)
      else None
    else if IsDigits(t) then Some(DigitsValue(t))
    else None
  }

  /** `int(s)` for a Python 2 `str`: surrounding whitespace, an optional sign
      followed by optional whitespace, and at least one decimal digit;
      anything else raises `ValueError`. */
  function ParseInt(s: string): Option<int> {
    SignedValue(Strip(s, Whitespace))
  }

  predicate AllWhitespace(w: string) {
    forall i :: 0 <= i < |w| ==> w[i] in Whitespace
  }

  /** The parts of an integer literal as Python 2's `int()` reads it:
      whitespace, an optional sign, whitespace (only after a sign), the
      digits and whitespace again. */
  ghost predicate IntLiteral(w1: string, sign: string, w2: string, d: string, w3: string) {
    && AllWhitespace(w1) && AllWhitespace(w2) && AllWhitespace(w3)
    && (sign == "" || sign == "-" || sign == "+")
    && (sign == "" ==> w2 == "")
    && IsDigits(d)
  }

  /** The value an integer literal denotes. */
  ghost function LiteralValue(sign: string, d: string): int
    requires IsDigits(d)
  {
    var v: int := DigitsValue(d);
    if sign == "-" then -v else v
  }

  /** A leading run of characters in `cs` followed by one that is not: the
      run is exactly what `lstrip` removes. */
  lemma LeadLenOf(w: string, rest: string, cs: set<char>)
    requires forall i :: 0 <= i < |w| ==> w[i] in cs
    requires rest != [] && rest[0] !in cs
    ensures LeadLen(w + rest, cs) == |w|
    ensures LStrip(w + rest, cs) == rest
  {
    var s := w + rest;
    assert s[|w|..] == rest;
  }

  /** A string has one stripped core: two ways of removing characters of `cs`
      from both ends, each leaving a non-empty text that neither starts nor
      ends with one, leave the same text. */
  lemma StrippedUnique(s: string, r1: string, i1: int, r2: string, i2: int, cs: set<char>)
    requires StrippedAt(s, r1, cs, i1) && StrippedAt(s, r2, cs, i2) && r1 != []
    ensures r1 == r2
  {
    assert s[i1] == r1[0];
    assert s[i1 + |r1| - 1] == r1[|r1| - 1];
    if r2 != [] {
      assert s[i2] == r2[0];
      assert s[i2 + |r2| - 1] == r2[|r2| - 1];
      assert i1 == i2;
      assert |r1| == |r2|;
    }
  }

  /** Whitespace around a text that neither starts nor ends with whitespace
      is exactly what `strip` removes. */
  lemma StripAround(w1: string, core: string, w3: string)
    requires AllWhitespace(w1) && AllWhitespace(w3)
    requires core != [] && core[0] !in Whitespace && core[|core| - 1] !in Whitespace
    ensures Strip(w1 + core + w3, Whitespace) == core
  {
    var s := w1 + core + w3;
    assert s[|w1|..|w1| + |core|] == core;
    assert forall k :: |w1| + |core| <= k < |s| ==> s[k] == w3[k - |w1| - |core|];
    assert StrippedAt(s, core, Whitespace, |w1|);
    var r := Strip(s, Whitespace);
    StrippedUnique(s, core, |w1|, r, LeadLen(s, Whitespace), Whitespace);
  }

  /** A sign, whitespace and digits: the signed value of the digits. */
  lemma SignedValueOf(sign: string, w2: string, d: string)
    requires IntLiteral("", sign, w2, d, "")
    ensures SignedValue(sign + w2 + d) == Some(LiteralValue(sign, d))
  {
    if sign == "" {
      assert sign + w2 + d == d;
      assert d[0] != '-' && d[0] != '+';
    } else {
      SignedValueAfterSign(sign, w2, d);
    }
  }

  lemma SignedValueAfterSign(sign: string, w2: string, d: string)
    requires sign == "-" || sign == "+"
    requires AllWhitespace(w2) && IsDigits(d)
    ensures SignedValue(sign + w2 + d) == Some(LiteralValue(sign, d))
  {
    var core := sign + w2 + d;
    assert core[0] == sign[0];
    assert core[1..] == w2 + d;
    LeadLenOf(w2, d, Whitespace);
  }

  /** Every integer literal converts, to the value it denotes. */
  lemma ParseIntAccepts(w1: string, sign: string, w2: string, d: string, w3: string)
    requires IntLiteral(w1, sign, w2, d, w3)
    ensures ParseInt(w1 + (sign + w2 + d) + w3) == Some(LiteralValue(sign, d))
  {
    var core := sign + w2 + d;
    assert core[|core| - 1] == d[|d| - 1];
    assert core[0] == if sign == "" then d[0] else sign[0];
    StripAround(w1, core, w3);
    SignedValueOf(sign, w2, d);
  }

  /** The parts of a signed core that converts. */
  lemma SignedParts(core: string) returns (sign: string, w2: string, d: string)
    requires SignedValue(core).Some?
    ensures IntLiteral("", sign, w2, d, "")
    ensures core == sign + w2 + d
    ensures SignedValue(core) == Some(LiteralValue(sign, d))
  {
    if core[0] == '-' || core[0] == '+' {
      sign := core[..1];
      var rest := core[1..];
      d := LStrip(rest, Whitespace);
      w2 := rest[..|rest| - |d|];
      assert rest == w2 + d;
      assert core == sign + w2 + d;
    } else {
      sign := "";
      w2 := "";
      d := core;
      assert core == sign + w2 + d;
    }
  }

  /** A stripped core sits between two runs of characters of `cs`. */
  lemma StrippedParts(s: string, core: string, cs: set<char>, k: int) returns (w1: string, w3: string)
    requires StrippedAt(s, core, cs, k)
    ensures forall i :: 0 <= i < |w1| ==> w1[i] in cs
    ensures forall i :: 0 <= i < |w3| ==> w3[i] in cs
    ensures s == w1 + core + w3
  {
    w1 := s[..k];
    w3 := s[k + |core|..];
    assert s == w1 + s[k..k + |core|] + w3;
  }

  /** Every string that converts is an integer literal, and converts to the
      value that literal denotes. */
  lemma ParseIntParts(s: string) returns (w1: string, sign: string, w2: string, d: string, w3: string)
    requires ParseInt(s).Some?
    ensures IntLiteral(w1, sign, w2, d, w3)
    ensures s == w1 + (sign + w2 + d) + w3
    ensures ParseInt(s) == Some(LiteralValue(sign, d))
  {
    var core := Strip(s, Whitespace);
    w1, w3 := StrippedParts(s, core, Whitespace, LeadLen(s, Whitespace));
    sign, w2, d := SignedParts(core);
  }

  /** `str(i)`: an optional minus sign and the digits of `|i|`. */
  lemma IntToStringParts(i: int) returns (sign: string, d: string)
    ensures IntLiteral("", sign, "", d, "")
    ensures IntToString(i) == [] + (sign + [] + d) + []
    ensures LiteralValue(sign, d) == i
  {
    d := NatToString(if i < 0 then -i else i);
    sign := if i < 0 then "-" else "";
    assert sign + [] + d == sign + d;
  }

  /** `int()` reads back what `str()` writes for every integer. */
  lemma ParseIntString(i: int)
    ensures ParseInt(IntToString(i)) == Some(i)
  {
    var sign, d := IntToStringParts(i);
    ParseIntAccepts([], sign, [], d, []);
  }

  /** `str(v)`; inside a list, strings are shown between single quotes. */
  function Str(v: PyValue): string {
    match v
    case PyStr(s) => s
    case PyBool(b) => if b then "True" else "False"
    case PyInt(i) => IntToString(i)
    case PyNone => "None"
    case PyList(items) => "[" + ReprList(items) + "]"
  }

  /** The comma-separated `repr` of the elements of a list. */
  function ReprList(items: seq<PyValue>): string
    decreases items
  {
    if |items| == 0 then ""
    else
      var first := if items[0].PyStr? then "'" + items[0].s + "'" else Str(items[0]);
      if |items| == 1 then first else first + ", " + ReprList(items[1..])
  }
}

/** Release versions as triples of natural numbers, Python's ordering of int
    tuples, and the dotted text form `major.minor.micro`. */
module Versions {
  import opened Wrappers
  import opened Strings

  datatype Version = Version(major: nat, minor: nat, micro: nat)

  /** The version as a Python tuple `(major, minor, micro)`. */
  function Parts(v: Version): seq<int> {
    [v.major, v.minor, v.micro]
  }

  /** Python's `a < b` on tuples of ints: lexicographic, a proper prefix is smaller. */
  predicate TupleLess(a: seq<int>, b: seq<int>)
    decreases |a|
  {
    if |a| == 0 then |b| > 0
    else if |b| == 0 then false
    else if a[0] != b[0] then a[0] < b[0]
    else TupleLess(a[1..], b[1..])
  }

  lemma {:induction false} TupleLessIrreflexive(a: seq<int>)
    ensures !TupleLess(a, a)
    decreases |a|
  {
    if |a| > 0 {
      TupleLessIrreflexive(a[1..]);
    }
  }

  lemma {:induction false} TupleLessAsymmetric(a: seq<int>, b: seq<int>)
    requires TupleLess(a, b)
    ensures !TupleLess(b, a)
    decreases |a|
  {
    if |a| > 0 && |b| > 0 && a[0] == b[0] {
      TupleLessAsymmetric(a[1..], b[1..]);
    }
  }

  lemma {:induction false} TupleLessTransitive(a: seq<int>, b: seq<int>, c: seq<int>)
    requires TupleLess(a, b) && TupleLess(b, c)
    ensures TupleLess(a, c)
    decreases |a|
  {
    if |a| > 0 && a[0] == b[0] && b[0] == c[0] {
      TupleLessTransitive(a[1..], b[1..], c[1..]);
    }
  }

  /** Two different tuples are always ordered one way or the other. */
  lemma {:induction false} TupleLessTotal(a: seq<int>, b: seq<int>)
    requires a != b
    ensures TupleLess(a, b) || TupleLess(b, a)
    decreases |a|
  {
    if |a| > 0 && |b| > 0 && a[0] == b[0] {
      assert a == [a[0]] + a[1..] && b == [b[0]] + b[1..];
      TupleLessTotal(a[1..], b[1..]);
    }
  }

  /** The ordering of release versions: the ordering of their tuples. */
  predicate VersionLess(a: Version, b: Version) {
    TupleLess(Parts(a), Parts(b))
  }

  /** Version ordering is lexicographic: major first, then minor, then micro. */
  lemma VersionLessLexicographic(a: Version, b: Version)
    ensures VersionLess(a, b) <==>
      a.major < b.major
      || (a.major == b.major && a.minor < b.minor)
      || (a.major == b.major && a.minor == b.minor && a.micro < b.micro)
  {
    assert Parts(a)[1..] == [a.minor, a.micro] && Parts(b)[1..] == [b.minor, b.micro];
    assert [a.minor, a.micro][1..] == [a.micro] && [b.minor, b.micro][1..] == [b.micro];
    assert [a.micro][1..] == [] && [b.micro][1..] == [];
    assert TupleLess([a.micro], [b.micro]) == (a.micro < b.micro);
    assert TupleLess([a.minor, a.micro], [b.minor, b.micro])
      == if a.minor != b.minor then a.minor < b.minor else TupleLess([a.micro], [b.micro]);
    assert TupleLess(Parts(a), Parts(b))
      == if a.major != b.major then a.major < b.major
         else TupleLess([a.minor, a.micro], [b.minor, b.micro]);
  }

  /** The text `major.minor.micro`, as `".".join(str(c) for c in ...)` writes it. */
  function VersionString(v: Version): string {
    Join([NatToString(v.major), NatToString(v.minor), NatToString(v.micro)], '.')
  }

  /** Joining three pieces puts one separator between neighbours. */
  lemma JoinThree(a: string, b: string, c: string, sep: char)
    ensures Join([a, b, c], sep) == a + [sep] + b + [sep] + c
  {
    assert [a, b, c][1..] == [b, c];
    assert [b, c][1..] == [c];
    assert Join([b, c], sep) == b + [sep] + c;
    assert Join([a, b, c], sep) == a + [sep] + (b + [sep] + c);
  }

  predicate VersionChar(c: char) {
    IsDigit(c) || c == '.'
  }

  /** Python's `tuple(int(p) for p in s.split("."))`. */
  function ParseDotted(s: string): Result<seq<int>> {
    ParseAll(Split(s, '.'))
  }

  /** `int(p)` for every piece, failing on the first piece that is not an integer. */
  function ParseAll(pieces: seq<string>): (r: Result<seq<int>>)
    ensures r.Ok? ==> |r.value| == |pieces|
    ensures r.Err? ==> r.error == ValueError
    decreases |pieces|
  {
    if |pieces| == 0 then Ok([])
    else
      var head := ParseInt(pieces[0]);
      var tail := ParseAll(pieces[1..]);
      if head.Err? then Err(head.error)
      else if tail.Err? then Err(tail.error)
      else Ok([head.value] + tail.value)
  }

  lemma ParseAllCons(x: string, rest: seq<string>, n: int, ns: seq<int>)
    requires ParseInt(x) == Ok(n) && ParseAll(rest) == Ok(ns)
    ensures ParseAll([x] + rest) == Ok([n] + ns)
  {
    var pieces := [x] + rest;
    assert pieces[0] == x && pieces[1..] == rest;
    var head := ParseInt(pieces[0]);
    assert ParseAll(pieces) == Ok([head.value] + ns);
  }

  /** The text of a version is made of digits and dots only. */
  lemma VersionStringChars(v: Version)
    ensures forall i :: 0 <= i < |VersionString(v)| ==> VersionChar(VersionString(v)[i])
  {
    NatToStringDigits(v.major);
    NatToStringDigits(v.minor);
    NatToStringDigits(v.micro);
    JoinThree(NatToString(v.major), NatToString(v.minor), NatToString(v.micro), '.');
  }

  /** Reading back the text of a version gives its tuple. */
  lemma ParseVersionString(v: Version)
    ensures ParseDotted(VersionString(v)) == Ok(Parts(v))
  {
    var pieces := [NatToString(v.major), NatToString(v.minor), NatToString(v.micro)];
    NatToStringDigits(v.major);
    NatToStringDigits(v.minor);
    NatToStringDigits(v.micro);
    assert forall k :: 0 <= k < 3 ==> AllDigits(pieces[k]);
    SplitJoin(pieces, '.');
    assert Split(VersionString(v), '.') == pieces;
    ParseNatToString(v.major);
    ParseNatToString(v.minor);
    ParseNatToString(v.micro);
    var s1, s2, s3 := NatToString(v.major), NatToString(v.minor), NatToString(v.micro);
    ParseAllCons(s3, [], v.micro, []);
    assert [s3] + [] == [s3] && [v.micro as int] + [] == [v.micro as int];
    ParseAllCons(s2, [s3], v.minor, [v.micro]);
    assert [s2] + [s3] == [s2, s3] && [v.minor as int] + [v.micro as int] == [v.minor as int, v.micro];
    ParseAllCons(s1, [s2, s3], v.major, [v.minor, v.micro]);
    assert [s1] + [s2, s3] == pieces;
    assert [v.major as int] + [v.minor as int, v.micro] == Parts(v);
  }

  /** Different versions have different texts. */
  lemma VersionStringInjective(a: Version, b: Version)
    requires VersionString(a) == VersionString(b)
    ensures a == b
  {
    ParseVersionString(a);
    ParseVersionString(b);
  }

  /** A non-empty run of decimal digits. */
  predicate Numeral(s: string) {
    |s| > 0 && AllDigits(s)
  }

  /** A release version written `major.minor.micro` in decimal digits;
      anything else is refused with ValueError. */
  function ParseRelease(s: string): Result<Version> {
    var pieces := Split(s, '.');
    if |pieces| == 3 && Numeral(pieces[0]) && Numeral(pieces[1]) && Numeral(pieces[2]) then
      Ok(Version(DigitsValue(pieces[0]), DigitsValue(pieces[1]), DigitsValue(pieces[2])))
    else Err(ValueError)
  }

  /** Reading back the text of a version gives the version. */
  lemma ParseReleaseVersionString(v: Version)
    ensures ParseRelease(VersionString(v)) == Ok(v)
  {
    var pieces := [NatToString(v.major), NatToString(v.minor), NatToString(v.micro)];
    NatToStringDigits(v.major);
    NatToStringDigits(v.minor);
    NatToStringDigits(v.micro);
    assert forall k :: 0 <= k < 3 ==> AllDigits(pieces[k]);
    SplitJoin(pieces, '.');
  }

  /** A parsed release written back is the original text up to leading zeros:
      parsing the written text gives the same version. */
  lemma ParseReleaseCanonical(s: string)
    requires ParseRelease(s).Ok?
    ensures ParseRelease(VersionString(ParseRelease(s).value)) == ParseRelease(s)
  {
    ParseReleaseVersionString(ParseRelease(s).value);
  }
}

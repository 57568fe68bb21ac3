/** Reading the version out of a schema reference such as
    "/some/dir/yt-napari_0.1.3.json" and deciding whether the installed
    yt-napari can use that schema. */
module VersionComparison {
  import opened Wrappers
  import opened Strings
  import opened Versions

  /** The prefix of every yt-napari schema file name. */
  const SchemaPrefix: string := "yt-napari"

  /** One entry of the installed package's version tuple: a number, or a
      text part such as "dev1" or a commit hash. */
  datatype VersionPart = PInt(n: nat) | PText(text: string)

  /** The installed package: its version text and its version tuple. */
  datatype Installed = Installed(text: string, parts: seq<VersionPart>)

  /** `str(i).isnumeric()` for an entry of the version tuple. */
  predicate IsNumeric(p: VersionPart) {
    match p
    case PInt(_) => true
    case PText(t) => |t| > 0 && AllDigits(t)
  }

  function PartValue(p: VersionPart): int
    requires IsNumeric(p)
  {
    match p
    case PInt(n) => n
    case PText(t) => DigitsValue(t)
  }

  /** The numeric entries, in order, with `int` applied. */
  function Numerics(parts: seq<VersionPart>): (r: seq<int>)
    ensures |r| <= |parts|
    decreases |parts|
  {
    if |parts| == 0 then []
    else (if IsNumeric(parts[0]) then [PartValue(parts[0])] else []) + Numerics(parts[1..])
  }

  /** `_get_version_tuple`: the numeric entries among the first three of the
      installed version tuple, padded with zeros to exactly three. */
  function GetVersionTuple(parts: seq<VersionPart>): (r: seq<int>)
    ensures |r| == 3
  {
    var first := if |parts| <= 3 then parts else parts[..3];
    var nums := Numerics(first);
    nums + seq(3 - |nums|, _ => 0)
  }

  /** A release installed as `(a, b, c, ...)` has the version tuple `(a, b, c)`. */
  lemma ReleaseVersionTuple(v: Version, rest: seq<VersionPart>)
    ensures GetVersionTuple([PInt(v.major), PInt(v.minor), PInt(v.micro)] + rest) == Parts(v)
  {
    var parts := [PInt(v.major), PInt(v.minor), PInt(v.micro)] + rest;
    var first := if |parts| <= 3 then parts else parts[..3];
    assert first == [PInt(v.major), PInt(v.minor), PInt(v.micro)];
    assert first[1..] == [PInt(v.minor), PInt(v.micro)];
    assert first[1..][1..] == [PInt(v.micro)];
    assert Numerics([PInt(v.micro)]) == [v.micro as int] + Numerics([PInt(v.micro)][1..]);
    assert Numerics([PInt(v.micro)]) == [v.micro as int];
    assert Numerics(first[1..]) == [v.minor as int] + Numerics(first[1..][1..]);
    assert Numerics(first) == [v.major as int] + Numerics(first[1..]);
  }

  /** A development install such as `(0, 1, "dev1")` is padded: `(0, 1, 0)`. */
  lemma DevVersionTuple()
    ensures GetVersionTuple([PInt(0), PInt(1), PText("dev1")]) == [0, 1, 0]
  {
    var parts := [PInt(0), PInt(1), PText("dev1")];
    assert !IsDigit("dev1"[0]);
    assert !IsNumeric(parts[2]);
    assert parts[1..] == [PInt(1), PText("dev1")] && parts[1..][1..] == [PText("dev1")];
    assert Numerics([PText("dev1")]) == [];
    assert Numerics(parts) == [0, 1];
  }

  /** `_schema_version_tuple_from_str`: a reference to "yt-napari_latest" means
      the installed version; otherwise the last "/"-separated segment loses the
      prefix, every "_" and every ".json", and the rest is read as dotted
      integers (ValueError when a piece is not one). */
  function SchemaVersionTupleFromStr(raw: string, installed: Installed): Result<seq<int>> {
    if Contains(raw, "yt-napari_latest") then Ok(GetVersionTuple(installed.parts))
    else
      var segments := Split(raw, '/');
      VersionFromSegment(segments[|segments| - 1])
  }

  /** The version in the last path segment: without the prefix, every "_" and
      every ".json", read as dotted integers. */
  function VersionFromSegment(segment: string): Result<seq<int>> {
    ParseDotted(Replace(Replace(Replace(segment, SchemaPrefix, ""), "_", ""), ".json", ""))
  }

  /** `schema_version_is_valid`: a missing or foreign schema is invalid, a
      development schema is valid, an older or equal one is valid (older only
      with a warning), and a newer one is valid only when the check for
      development installs is on and the installed version is one. */
  function SchemaVersionIsValid(schemaVersion: Option<string>, devVersionCheck: bool, installed: Installed)
    : Result<bool>
  {
    if schemaVersion.None? || !Contains(schemaVersion.value, SchemaPrefix) then Ok(false)
    else if Contains(schemaVersion.value, "dev") then Ok(true)
    else
      var sc :- SchemaVersionTupleFromStr(schemaVersion.value, installed);
      var current := GetVersionTuple(installed.parts);
      if TupleLess(sc, current) then Ok(true)
      else if TupleLess(current, sc) then Ok(devVersionCheck && Contains(installed.text, "dev"))
      else Ok(true)
  }

  /** The file name of the schema of version `v`. */
  function SchemaFileName(v: Version): string {
    SchemaPrefix + "_" + VersionString(v) + ".json"
  }

  /** Every dot in `s` is followed by a digit and every other character is a digit. */
  predicate DottedDigits(s: string) {
    forall i :: 0 <= i < |s| ==> DigitOrDotBeforeDigit(s, i)
  }

  predicate DigitOrDotBeforeDigit(s: string, i: nat)
    requires i < |s|
  {
    IsDigit(s[i]) || (s[i] == '.' && i + 1 < |s| && IsDigit(s[i + 1]))
  }

  lemma VersionStringDotted(v: Version)
    ensures DottedDigits(VersionString(v))
  {
    var a, b, c := NatToString(v.major), NatToString(v.minor), NatToString(v.micro);
    NatToStringDigits(v.major);
    NatToStringDigits(v.minor);
    NatToStringDigits(v.micro);
    JoinThree(a, b, c, '.');
    var s := a + "." + b + "." + c;
    forall i | 0 <= i < |s|
      ensures DigitOrDotBeforeDigit(s, i)
    {
      if i < |a| {
        assert s[i] == a[i];
      } else if i == |a| {
        assert s[i + 1] == b[0];
      } else if i < |a| + 1 + |b| {
        assert s[i] == b[i - |a| - 1];
      } else if i == |a| + 1 + |b| {
        assert s[i + 1] == c[0];
      } else {
        assert s[i] == c[i - |a| - 2 - |b|];
      }
    }
  }

  /** Dropping ".json" from a dotted version followed by ".json" leaves the version. */
  lemma {:induction false} StripJsonSuffix(s: string)
    requires DottedDigits(s)
    ensures Replace(s + ".json", ".json", "") == s
    decreases |s|
  {
    var t := s + ".json";
    if |s| == 0 {
      assert t == ".json";
      assert StartsWith(t, ".json");
      assert t[|".json"|..] == [];
    } else {
      assert DigitOrDotBeforeDigit(s, 0);
      assert t[..5] != ".json" by {
        if s[0] == '.' {
          assert t[..5][1] == s[1];
        } else {
          assert t[..5][0] == s[0];
        }
      }
      assert t[1..] == s[1..] + ".json";
      assert DottedDigits(s[1..]) by {
        forall i | 0 <= i < |s[1..]|
          ensures DigitOrDotBeforeDigit(s[1..], i)
        {
          assert s[1..][i] == s[i + 1];
          assert DigitOrDotBeforeDigit(s, i + 1);
          if i + 1 < |s[1..]| {
            assert s[1..][i + 1] == s[i + 2];
          }
        }
      }
      StripJsonSuffix(s[1..]);
      assert [s[0]] + s[1..] == s;
    }
  }

  /** A character that is neither a digit nor a dot is not in a version's text. */
  lemma VersionStringLacks(v: Version, c: char)
    requires !IsDigit(c) && c != '.'
    ensures c !in VersionString(v)
  {
    VersionStringChars(v);
    forall i | 0 <= i < |VersionString(v)|
      ensures VersionString(v)[i] != c
    {
    }
  }

  /** The characters a schema file name lacks: the "e" of "latest", the "d" of
      "dev", and the path separator. */
  lemma SchemaFileNameLacks(v: Version)
    ensures 'e' !in SchemaFileName(v) && 'd' !in SchemaFileName(v) && '/' !in SchemaFileName(v)
  {
    VersionStringLacks(v, 'e');
    VersionStringLacks(v, 'd');
    VersionStringLacks(v, '/');
  }

  /** Removing the prefix from the head of a text without a "y" elsewhere. */
  lemma StripSchemaPrefix(rest: string)
    requires 'y' !in rest
    ensures Replace(SchemaPrefix + rest, SchemaPrefix, "") == rest
  {
    var name := SchemaPrefix + rest;
    assert StartsWith(name, SchemaPrefix) && name[|SchemaPrefix|..] == rest;
    NotContainsFirstChar(rest, SchemaPrefix);
    ReplaceAbsent(rest, SchemaPrefix, "");
  }

  /** Removing the underscore from the head of a text without another one. */
  lemma StripUnderscore(rest: string)
    requires '_' !in rest
    ensures Replace("_" + rest, "_", "") == rest
  {
    assert StartsWith("_" + rest, "_") && ("_" + rest)[1..] == rest;
    RemoveCharAbsent(rest, '_');
  }

  /** Stripping prefix, "_" and ".json" from a schema file name leaves the
      version's text, which reads back as the version. */
  lemma SchemaFileNameSegment(v: Version)
    ensures VersionFromSegment(SchemaFileName(v)) == Ok(Parts(v))
  {
    var vs := VersionString(v);
    var name := SchemaFileName(v);
    VersionStringLacks(v, 'y');
    VersionStringLacks(v, '_');
    var rest := "_" + vs + ".json";
    assert name == SchemaPrefix + rest;
    StripSchemaPrefix(rest);
    assert rest == "_" + (vs + ".json");
    StripUnderscore(vs + ".json");
    VersionStringDotted(v);
    StripJsonSuffix(vs);
    ParseVersionString(v);
  }

  /** Reading the version back from a schema file name gives the version. */
  lemma SchemaFileNameVersion(v: Version, installed: Installed)
    ensures VersionFromSegment(SchemaFileName(v)) == Ok(Parts(v))
    ensures SchemaVersionTupleFromStr(SchemaFileName(v), installed) == Ok(Parts(v))
  {
    var name := SchemaFileName(v);
    SchemaFileNameLacks(v);
    NotContainsChar(name, "yt-napari_latest", 13);
    SplitNoSep(name, '/');
    SchemaFileNameSegment(v);
  }

  /** Only the last path segment matters: a schema file in some directory reads
      as the bare file name. */
  lemma SchemaPathVersion(dir: string, v: Version, installed: Installed)
    requires !Contains(dir + "/" + SchemaFileName(v), "yt-napari_latest")
    ensures SchemaVersionTupleFromStr(dir + "/" + SchemaFileName(v), installed) == Ok(Parts(v))
  {
    SchemaFileNameLacks(v);
    SplitLastAfterSep(dir, SchemaFileName(v), '/');
    SchemaFileNameVersion(v, installed);
  }

  /** The reference "yt-napari_latest" reads as the installed version. */
  lemma LatestIsInstalled(raw: string, installed: Installed)
    requires Contains(raw, "yt-napari_latest")
    ensures SchemaVersionTupleFromStr(raw, installed) == Ok(GetVersionTuple(installed.parts))
  {
  }

  /** The text of a version with one-digit components. */
  lemma ShortVersionString(a: nat, b: nat, c: nat)
    requires a < 10 && b < 10 && c < 10
    ensures VersionString(Version(a, b, c)) == [DigitChar(a), '.', DigitChar(b), '.', DigitChar(c)]
  {
    JoinThree([DigitChar(a)], [DigitChar(b)], [DigitChar(c)], '.');
  }

  /** The example "yt-napari_0.1.3.json" reads as (0, 1, 3). */
  lemma SchemaVersionExample013(installed: Installed)
    ensures SchemaVersionTupleFromStr("yt-napari_0.1.3.json", installed) == Ok([0, 1, 3])
  {
    ShortVersionString(0, 1, 3);
    assert SchemaFileName(Version(0, 1, 3)) == "yt-napari_0.1.3.json";
    SchemaFileNameVersion(Version(0, 1, 3), installed);
  }

  /** The example path is the schema file of 2.1.0 in "/blah/blah". */
  lemma ExamplePathSpelled()
    ensures "/blah/blah/yt-napari_2.1.0.json" == "/blah/blah" + "/" + SchemaFileName(Version(2, 1, 0))
  {
    ShortVersionString(2, 1, 0);
  }

  /** The example path does not name the latest schema. */
  lemma ExamplePathNotLatest()
    ensures !Contains("/blah/blah/yt-napari_2.1.0.json", "yt-napari_latest")
  {
    assert 'e' !in "/blah/blah/yt-napari_2.1.0.json";
    NotContainsChar("/blah/blah/yt-napari_2.1.0.json", "yt-napari_latest", 13);
  }

  /** The example "/blah/blah/yt-napari_2.1.0.json" reads as (2, 1, 0). */
  lemma SchemaVersionExamplePath(installed: Installed)
    ensures SchemaVersionTupleFromStr("/blah/blah/yt-napari_2.1.0.json", installed) == Ok([2, 1, 0])
  {
    ExamplePathSpelled();
    ExamplePathNotLatest();
    SchemaPathVersion("/blah/blah", Version(2, 1, 0), installed);
  }

  /** For a schema file of version `v`, validity is decided by the version order
      alone: valid unless newer than the installed version, and a newer one
      only under the development check of a development install. */
  lemma SchemaFileValidity(v: Version, devVersionCheck: bool, installed: Installed, current: Version)
    requires GetVersionTuple(installed.parts) == Parts(current)
    ensures SchemaVersionIsValid(Some(SchemaFileName(v)), devVersionCheck, installed)
      == Ok(!VersionLess(current, v) || (devVersionCheck && Contains(installed.text, "dev")))
  {
    var name := SchemaFileName(v);
    assert name[..|SchemaPrefix|] == SchemaPrefix;
    ContainsAt(name, SchemaPrefix, 0);
    SchemaFileNameLacks(v);
    NotContainsFirstChar(name, "dev");
    SchemaFileNameVersion(v, installed);
    if TupleLess(Parts(v), Parts(current)) {
      TupleLessAsymmetric(Parts(v), Parts(current));
    }
  }

  lemma VersionString1000()
    ensures VersionString(Version(1000, 1, 0)) == "1000.1.0"
  {
    assert NatToString(1) == "1";
    assert NatToString(10) == NatToString(1) + "0";
    assert NatToString(100) == NatToString(10) + "0";
    assert NatToString(1000) == NatToString(100) + "0";
    JoinThree("1000", "1", "0", '.');
  }

  lemma NewerExampleSpelled()
    ensures SchemaFileName(Version(1000, 1, 0)) == "yt-napari_1000.1.0.json"
  {
    VersionString1000();
  }

  /** A schema newer than the installed version is refused when the
      development check is off, as for "yt-napari_1000.1.0.json". */
  lemma NewerSchemaRefused(installed: Installed, current: Version)
    requires GetVersionTuple(installed.parts) == Parts(current) && current.major < 1000
    ensures SchemaVersionIsValid(Some("yt-napari_1000.1.0.json"), false, installed) == Ok(false)
  {
    NewerExampleSpelled();
    SchemaFileValidity(Version(1000, 1, 0), false, installed, current);
    VersionLessLexicographic(current, Version(1000, 1, 0));
  }

  /** A reference to the latest schema is always valid. */
  lemma LatestIsValid(raw: string, devVersionCheck: bool, installed: Installed)
    requires Contains(raw, "yt-napari_latest")
    ensures SchemaVersionIsValid(Some(raw), devVersionCheck, installed) == Ok(true)
  {
    var i := ContainsWitness(raw, "yt-napari_latest");
    assert raw[i..i + 9] == raw[i..i + 16][..9];
    ContainsAt(raw, SchemaPrefix, i);
    TupleLessIrreflexive(GetVersionTuple(installed.parts));
  }

  /** A development schema is valid whatever its numbers. */
  lemma DevSchemaIsValid(raw: string, devVersionCheck: bool, installed: Installed)
    requires Contains(raw, SchemaPrefix) && Contains(raw, "dev")
    ensures SchemaVersionIsValid(Some(raw), devVersionCheck, installed) == Ok(true)
  {
  }
}

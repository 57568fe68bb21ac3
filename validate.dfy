/** The release check run before tagging a version: the release string must be
    `v` followed by a three-part version, and the schema directory must hold a
    schema file of that version for the `yt-napari` prefix. */
module ReleaseValidation {
  import opened Wrappers
  import opened Strings
  import opened Versions
  import opened SchemaManager
  import VersionComparison

  const ReleasePrefix: string := "yt-napari"

  /** The version-string checks of `validate`: RuntimeError unless the string
      starts with "v"; every "v" is then removed, each "."-separated piece goes
      through `int` (ValueError on the first that fails), and a count other
      than three pieces is a RuntimeError. Gives the version number text. */
  function CheckVersionString(version: string): (r: Result<string>)
    ensures !StartsWith(version, "v") ==> r == Err(RuntimeError)
    ensures r.Ok? ==> r.value == Replace(version, "v", "") && 'v' !in r.value
    ensures r.Ok? ==> ParseDotted(r.value).Ok? && |ParseDotted(r.value).value| == 3
    ensures r.Err? ==> r.error == RuntimeError || r.error == ValueError
    ensures var parts := ParseDotted(Replace(version, "v", ""));
      r.Ok? <==> StartsWith(version, "v") && parts.Ok? && |parts.value| == 3
    ensures var parts := ParseDotted(Replace(version, "v", ""));
      StartsWith(version, "v") && parts.Err? ==> r == Err(ValueError)
    ensures var parts := ParseDotted(Replace(version, "v", ""));
      StartsWith(version, "v") && parts.Ok? && |parts.value| != 3 ==> r == Err(RuntimeError)
  {
    if !StartsWith(version, "v") then Err(RuntimeError)
    else
      var vnumber := Replace(version, "v", "");
      RemoveCharGone(version, 'v');
      var parts :- ParseDotted(vnumber);
      if |parts| != 3 then Err(RuntimeError) else Ok(vnumber)
  }

  /** The tag of a release, `v` and its version text, passes the string checks
      and gives back the version text. */
  lemma ReleaseTagAccepted(v: Version)
    ensures CheckVersionString("v" + VersionString(v)) == Ok(VersionString(v))
  {
    var s := VersionString(v);
    var tag := "v" + s;
    assert tag[..1] == "v";
    assert tag[1..] == s;
    VersionComparison.VersionStringLacks(v, 'v');
    RemoveCharAbsent(s, 'v');
    assert Replace(tag, "v", "") == Replace(s, "v", "");
    ParseVersionString(v);
  }

  /** A version number with two parts is refused with RuntimeError. */
  lemma TwoPartsRefused()
    ensures CheckVersionString("v1.2") == Err(RuntimeError)
  {
    assert StartsWith("v1.2", "v");
    assert Replace("v1.2", "v", "") == "1.2" by {
      assert "v1.2"[1..] == "1.2";
      RemoveCharAbsent("1.2", 'v');
    }
    assert Split("1.2", '.') == ["1", "2"] by {
      assert "1.2" == "1" + ['.'] + "2";
      SplitPrefix("1", "2", '.');
      SplitNoSep("2", '.');
    }
    ParseNatToString(1);
    ParseNatToString(2);
    ParseAllCons("2", [], 2, []);
    assert ["2"] + [] == ["2"] && [2] + [] == [2];
    ParseAllCons("1", ["2"], 1, [2]);
    assert ["1"] + ["2"] == ["1", "2"];
  }

  lemma NonIntegerTagStripped()
    ensures StartsWith("v1.x.3", "v") && Replace("v1.x.3", "v", "") == "1.x.3"
  {
    assert "v1.x.3"[1..] == "1.x.3";
    RemoveCharAbsent("1.x.3", 'v');
  }

  lemma NonIntegerTagPieces()
    ensures Split("1.x.3", '.') == ["1", "x", "3"]
  {
    assert "1.x.3" == "1" + ['.'] + "x.3";
    SplitPrefix("1", "x.3", '.');
    assert "x.3" == "x" + ['.'] + "3";
    SplitPrefix("x", "3", '.');
    SplitNoSep("3", '.');
  }

  /** A piece that is not an integer fails the `int` conversion with ValueError. */
  lemma NonIntegerPieceRefused()
    ensures CheckVersionString("v1.x.3") == Err(ValueError)
  {
    NonIntegerTagStripped();
    NonIntegerTagPieces();
    ParseIntRejects("x", 0);
    assert ["1", "x", "3"][1..] == ["x", "3"];
  }

  /** `validate`, up to the documentation checks: the string checks, a reading
      of the schema directory `schemaFiles` (ValueError when a file name cannot
      be read), then RuntimeError unless the version number is among the
      versions recorded for the `yt-napari` prefix. */
  method Validate(version: string, schemaFiles: map<string, string>) returns (o: Outcome)
    ensures CheckVersionString(version).Err? ==> o == Fail(CheckVersionString(version).error)
    ensures CheckVersionString(version).Ok? && !AllReadable(schemaFiles.Keys) ==> o == Fail(ValueError)
    ensures CheckVersionString(version).Ok? && AllReadable(schemaFiles.Keys) ==>
      (o == Pass <==> CheckVersionString(version).value in Found(schemaFiles.Keys, ReleasePrefix))
    ensures o.Fail? && CheckVersionString(version).Ok? && AllReadable(schemaFiles.Keys) ==>
      o.error == RuntimeError
  {
    var vnumber := CheckVersionString(version);
    if vnumber.Err? {
      return Fail(vnumber.error);
    }
    var m, reading := Manager.Open(schemaFiles);
    if reading.Fail? {
      return reading;
    }
    if vnumber.value !in VersionsAt(m.versions, ReleasePrefix) {
      return Fail(RuntimeError);
    }
    return Pass;
  }

  /** The release prefix holds no "_", so the manager accepts it. */
  lemma ReleasePrefixPlain()
    ensures '_' !in ReleasePrefix
  {
    assert forall i :: 0 <= i < |ReleasePrefix| ==> ReleasePrefix[i] != '_';
  }

  /** A release whose schema file the manager wrote is accepted as a tag and
      found among the release versions, so by the contract of `Validate` it
      passes whenever every file of the directory reads. */
  lemma WrittenReleasePasses(v: Version, schemaFiles: map<string, string>)
    requires FileName(ReleasePrefix, VersionString(v)) in schemaFiles
    ensures CheckVersionString("v" + VersionString(v)) == Ok(VersionString(v))
    ensures VersionString(v) in Found(schemaFiles.Keys, ReleasePrefix)
  {
    ReleaseTagAccepted(v);
    ReleasePrefixPlain();
    WrittenSchemaFound(ReleasePrefix, v, schemaFiles.Keys);
  }
}

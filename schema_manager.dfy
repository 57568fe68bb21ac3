/** The on-disk schema store used while developing new schema versions: the
    schema files of one directory, the versions seen for each prefix and the
    greatest of them, the next version number and the refusal to overwrite. */
module SchemaManager {
  import opened Wrappers
  import opened Strings
  import opened Versions

  const DefaultSchemaPrefix: string := "napari-schema"

  /** The position of the last "." in a file name. */
  function LastDot(name: string): (r: Option<nat>)
    ensures r.Some? ==> r.value < |name| && name[r.value] == '.'
    ensures r.Some? ==> forall j :: r.value < j < |name| ==> name[j] != '.'
    ensures r.None? ==> '.' !in name
    decreases |name|
  {
    if |name| == 0 then None
    else if name[|name| - 1] == '.' then Some(|name| - 1)
    else LastDot(name[..|name| - 1])
  }

  /** A path's suffix: from the last "." on, unless that dot starts or ends the name. */
  function Suffix(name: string): string {
    match LastDot(name)
    case Some(i) => if 0 < i < |name| - 1 then name[i..] else ""
    case None => ""
  }

  /** A path's stem: the name without its suffix. */
  function Stem(name: string): string {
    match LastDot(name)
    case Some(i) => if 0 < i < |name| - 1 then name[..i] else name
    case None => name
  }

  /** `_filename`: the file that holds version `versionText` of `prefix`. */
  function FileName(prefix: string, versionText: string): string {
    prefix + "_" + versionText + ".json"
  }

  /** What one file name says: its prefix and version text. */
  datatype SchemaEntry = SchemaEntry(prefix: string, versionText: string)

  /** How `_check_versions` reads one file name: files whose suffix does not
      mention "json" are skipped; the stem of any other must split on "_"
      into exactly two parts (ValueError otherwise). */
  function EntryOf(name: string): Result<Option<SchemaEntry>> {
    if !Contains(Suffix(name), "json") then Ok(None)
    else
      var pieces := Split(Stem(name), '_');
      if |pieces| != 2 then Err(ValueError) else Ok(Some(SchemaEntry(pieces[0], pieces[1])))
  }

  /** The file is read without error: its name splits and its version parses. */
  predicate Readable(name: string) {
    EntryOf(name).Ok?
    && (EntryOf(name).value.Some? ==> ParseRelease(EntryOf(name).value.value.versionText).Ok?)
  }

  predicate AllReadable(names: set<string>) {
    forall n :: n in names ==> Readable(n)
  }

  /** The entry of a schema file for `prefix`, when the file is one. */
  predicate EntryFor(name: string, prefix: string) {
    EntryOf(name).Ok? && EntryOf(name).value.Some? && EntryOf(name).value.value.prefix == prefix
  }

  /** The version texts the files `names` hold for `prefix`. */
  function Found(names: set<string>, prefix: string): set<string> {
    set n | n in names && EntryFor(n, prefix) :: EntryOf(n).value.value.versionText
  }

  /** The versions the files `names` hold for `prefix`, parsed. */
  function FoundVersions(names: set<string>, prefix: string): set<Version> {
    set n | n in names && EntryFor(n, prefix) && ParseRelease(EntryOf(n).value.value.versionText).Ok?
      :: ParseRelease(EntryOf(n).value.value.versionText).value
  }

  /** The version texts recorded for a prefix (none for an unseen prefix). */
  function VersionsAt(m: map<string, set<string>>, prefix: string): set<string> {
    if prefix in m then m[prefix] else {}
  }

  /** The greatest version recorded for a prefix (0.0.0 for an unseen prefix). */
  function MaxAt(m: map<string, Version>, prefix: string): Version {
    if prefix in m then m[prefix] else Version(0, 0, 0)
  }

  /** `m` is the greatest of `start` and the versions in `s`. */
  predicate IsMaxOf(m: Version, start: Version, s: set<Version>) {
    (m == start || m in s) && !VersionLess(m, start) && forall v :: v in s ==> !VersionLess(m, v)
  }

  /** The greatest of `start` alone is `start`. */
  lemma IsMaxOfStart(start: Version)
    ensures IsMaxOf(start, start, {})
  {
    TupleLessIrreflexive(Parts(start));
  }

  /** Taking one more version into a running maximum, replacing the maximum
      only by a strictly greater version. */
  lemma IsMaxOfAdd(m: Version, start: Version, s: set<Version>, v: Version)
    requires IsMaxOf(m, start, s)
    ensures IsMaxOf(if VersionLess(m, v) then v else m, start, s + {v})
  {
    if VersionLess(m, v) {
      TupleLessAsymmetric(Parts(m), Parts(v));
      TupleLessIrreflexive(Parts(v));
      forall x | x in s + {v}
        ensures !VersionLess(v, x)
      {
        if x in s && VersionLess(v, x) {
          TupleLessTransitive(Parts(m), Parts(v), Parts(x));
        }
      }
      if VersionLess(v, start) {
        TupleLessTransitive(Parts(m), Parts(v), Parts(start));
      }
    } else {
      assert !VersionLess(m, v);
    }
  }

  /** The state after reading the files `names`, from versions `v0` and maxima
      `m0`: every version text found is recorded, and each maximum is the
      greatest of the old one and the versions found. */
  ghost predicate Checked(v0: map<string, set<string>>, m0: map<string, Version>, names: set<string>,
                    v1: map<string, set<string>>, m1: map<string, Version>)
  {
    (forall p :: VersionsAt(v1, p) == VersionsAt(v0, p) + Found(names, p))
    && (forall p :: IsMaxOf(MaxAt(m1, p), MaxAt(m0, p), FoundVersions(names, p)))
  }

  /** Reading one more file extends what was found by that file's entry. */
  lemma FoundAdd(done: set<string>, name: string, prefix: string)
    requires EntryOf(name).Ok?
    ensures Found(done + {name}, prefix)
      == Found(done, prefix) + (if EntryFor(name, prefix) then {EntryOf(name).value.value.versionText} else {})
  {
  }

  lemma FoundVersionsAdd(done: set<string>, name: string, prefix: string)
    requires Readable(name)
    ensures FoundVersions(done + {name}, prefix)
      == FoundVersions(done, prefix)
         + (if EntryFor(name, prefix) then {ParseRelease(EntryOf(name).value.value.versionText).value} else {})
  {
  }

  /** The version text one file adds to a prefix's record. */
  function StepTexts(name: string, prefix: string): set<string> {
    if EntryFor(name, prefix) then {EntryOf(name).value.value.versionText} else {}
  }

  /** A prefix's maximum after one readable file: replaced only by a strictly
      greater version of that prefix. */
  function StepMax(m: Version, name: string, prefix: string): Version {
    if EntryFor(name, prefix) && ParseRelease(EntryOf(name).value.value.versionText).Ok?
       && VersionLess(m, ParseRelease(EntryOf(name).value.value.versionText).value)
    then ParseRelease(EntryOf(name).value.value.versionText).value
    else m
  }

  /** Nothing read yet: the record is the starting one. */
  lemma CheckedStart(v0: map<string, set<string>>, m0: map<string, Version>)
    ensures Checked(v0, m0, {}, v0, m0)
  {
    forall p
      ensures IsMaxOf(MaxAt(m0, p), MaxAt(m0, p), FoundVersions({}, p))
    {
      IsMaxOfStart(MaxAt(m0, p));
    }
  }

  /** Reading one more readable file keeps the record exact. */
  lemma CheckedStep(v0: map<string, set<string>>, m0: map<string, Version>, done: set<string>, name: string,
                    v1: map<string, set<string>>, m1: map<string, Version>,
                    v2: map<string, set<string>>, m2: map<string, Version>)
    requires Readable(name)
    requires Checked(v0, m0, done, v1, m1)
    requires forall p :: VersionsAt(v2, p) == VersionsAt(v1, p) + StepTexts(name, p)
    requires forall p :: MaxAt(m2, p) == StepMax(MaxAt(m1, p), name, p)
    ensures Checked(v0, m0, done + {name}, v2, m2)
  {
    forall p
      ensures VersionsAt(v2, p) == VersionsAt(v0, p) + Found(done + {name}, p)
    {
      FoundAdd(done, name, p);
    }
    forall p
      ensures IsMaxOf(MaxAt(m2, p), MaxAt(m0, p), FoundVersions(done + {name}, p))
    {
      FoundVersionsAdd(done, name, p);
      if EntryFor(name, p) {
        IsMaxOfAdd(MaxAt(m1, p), MaxAt(m0, p), FoundVersions(done, p),
                   ParseRelease(EntryOf(name).value.value.versionText).value);
      }
    }
  }

  /** A record that is exact for some files has only grown from the start,
      and so has any record that only adds texts to it. */
  lemma CheckedGrows(v0: map<string, set<string>>, m0: map<string, Version>, done: set<string>,
                     v1: map<string, set<string>>, m1: map<string, Version>, v2: map<string, set<string>>)
    requires Checked(v0, m0, done, v1, m1)
    requires forall p :: VersionsAt(v1, p) <= VersionsAt(v2, p)
    ensures forall p :: VersionsAt(v0, p) <= VersionsAt(v2, p)
    ensures forall p :: !VersionLess(MaxAt(m1, p), MaxAt(m0, p))
  {
  }

  /** `_validate_prefix`: no prefix means the default one; a prefix holding "_"
      is refused, since "_" separates prefix and version in file names. */
  function ValidatePrefix(prefix: Option<string>): (r: Result<string>)
    ensures r.Ok? <==> '_' !in prefix.GetOr(DefaultSchemaPrefix)
    ensures r.Err? ==> r.error == ValueError
    ensures r.Ok? ==> r.value == prefix.GetOr(DefaultSchemaPrefix)
  {
    var p := prefix.GetOr(DefaultSchemaPrefix);
    if '_' in p then Err(ValueError) else Ok(p)
  }

  /** The default prefix is accepted. */
  lemma DefaultPrefixValid()
    ensures ValidatePrefix(None) == Ok(DefaultSchemaPrefix)
  {
    assert forall i :: 0 <= i < |DefaultSchemaPrefix| ==> DefaultSchemaPrefix[i] != '_';
  }

  /** The automatic next version: one more in each flagged component, with no
      lower component reset. */
  function NextVersion(max: Version, incMicro: bool, incMinor: bool, incMajor: bool): Version {
    Version(max.major + (if incMajor then 1 else 0),
            max.minor + (if incMinor then 1 else 0),
            max.micro + (if incMicro then 1 else 0))
  }

  /** With any increment flag the next version is newer than the maximum, and
      with none it is the maximum itself. */
  lemma NextVersionNewer(max: Version, incMicro: bool, incMinor: bool, incMajor: bool)
    ensures incMicro || incMinor || incMajor ==> VersionLess(max, NextVersion(max, incMicro, incMinor, incMajor))
    ensures !(incMicro || incMinor || incMajor) ==> NextVersion(max, incMicro, incMinor, incMajor) == max
  {
    VersionLessLexicographic(max, NextVersion(max, incMicro, incMinor, incMajor));
  }

  /** The version sequence 0.0.0, 0.0.1, 0.0.2 by default, then 0.1.2 with the
      minor flag alone and 1.1.2 with the major flag alone. */
  lemma NextVersionExamples()
    ensures NextVersion(Version(0, 0, 0), true, false, false) == Version(0, 0, 1)
    ensures NextVersion(Version(0, 0, 1), true, false, false) == Version(0, 0, 2)
    ensures NextVersion(Version(0, 0, 2), false, true, false) == Version(0, 1, 2)
    ensures NextVersion(Version(0, 1, 2), false, false, true) == Version(1, 1, 2)
  {
  }

  /** The version text `write_new_schema` writes: an explicit non-empty version
      (ValueError when it does not parse), written back in its plain form;
      otherwise the next version after the maximum. */
  function NewVersionText(version: Option<string>, max: Version, incMicro: bool, incMinor: bool, incMajor: bool)
    : Result<string>
  {
    if version.Some? && |version.value| > 0 then
      var v :- ParseRelease(version.value);
      Ok(VersionString(v))
    else Ok(VersionString(NextVersion(max, incMicro, incMinor, incMajor)))
  }

  /** An explicit version ignores the maximum and the increment flags. */
  lemma ExplicitVersionIgnoresFlags(v: Version, max1: Version, max2: Version,
                                    f1: bool, f2: bool, f3: bool, g1: bool, g2: bool, g3: bool)
    ensures NewVersionText(Some(VersionString(v)), max1, f1, f2, f3)
         == NewVersionText(Some(VersionString(v)), max2, g1, g2, g3)
         == Ok(VersionString(v))
  {
    ParseReleaseVersionString(v);
    VersionStringChars(v);
    NatToStringDigits(v.major);
    JoinThree(NatToString(v.major), NatToString(v.minor), NatToString(v.micro), '.');
  }

  /** The last dot of `x + "." + y` is the one before `y` when `y` has none. */
  lemma {:induction false} LastDotBefore(x: string, y: string)
    requires '.' !in y
    ensures LastDot(x + "." + y) == Some(|x|)
    decreases |y|
  {
    var name := x + "." + y;
    if |y| > 0 {
      assert name[..|name| - 1] == x + "." + y[..|y| - 1];
      assert name[|name| - 1] == y[|y| - 1];
      LastDotBefore(x, y[..|y| - 1]);
    } else {
      assert name[|name| - 1] == '.';
    }
  }

  /** A file written for a prefix without "_" and a version text without "_"
      is read back as that prefix and version text. */
  lemma FileNameEntry(prefix: string, versionText: string)
    requires '_' !in prefix && '_' !in versionText
    ensures EntryOf(FileName(prefix, versionText)) == Ok(Some(SchemaEntry(prefix, versionText)))
  {
    var stem := prefix + "_" + versionText;
    var name := FileName(prefix, versionText);
    assert name == stem + "." + "json";
    LastDotBefore(stem, "json");
    assert Suffix(name) == ".json" && Stem(name) == stem;
    assert (".json")[1..1 + |"json"|] == "json";
    ContainsAt(".json", "json", 1);
    assert stem == prefix + ['_'] + versionText;
    SplitPrefix(prefix, versionText, '_');
    SplitNoSep(versionText, '_');
  }

  /** A schema written with a valid prefix is found again, with its version,
      by the next reading of the directory. */
  lemma WrittenSchemaFound(prefix: string, v: Version, names: set<string>)
    requires '_' !in prefix
    requires FileName(prefix, VersionString(v)) in names
    ensures VersionString(v) in Found(names, prefix)
    ensures v in FoundVersions(names, prefix)
  {
    VersionStringChars(v);
    assert '_' !in VersionString(v) by {
      forall i | 0 <= i < |VersionString(v)|
        ensures VersionString(v)[i] != '_'
      {
      }
    }
    FileNameEntry(prefix, VersionString(v));
    ParseReleaseVersionString(v);
    var name := FileName(prefix, VersionString(v));
    assert EntryFor(name, prefix);
  }

  /** The schema store: the directory's files (name to content), the version
      texts seen for each prefix and the greatest version for each prefix. */
  class Manager {
    var files: map<string, string>
    var versions: map<string, set<string>>
    var maxVersions: map<string, Version>

    constructor Empty(files0: map<string, string>)
      ensures files == files0 && versions == map[] && maxVersions == map[]
    {
      files := files0;
      versions := map[];
      maxVersions := map[];
    }

    /** `Manager(schema_db)`: an empty record, then a first reading of the directory. */
    static method Open(files0: map<string, string>) returns (m: Manager, o: Outcome)
      ensures fresh(m) && m.files == files0
      ensures o.Pass? <==> AllReadable(files0.Keys)
      ensures o.Fail? ==> o.error == ValueError
      ensures o.Pass? ==> forall p :: VersionsAt(m.versions, p) == Found(files0.Keys, p)
      ensures o.Pass? ==> forall p :: IsMaxOf(MaxAt(m.maxVersions, p), Version(0, 0, 0), FoundVersions(files0.Keys, p))
    {
      m := new Manager.Empty(files0);
      o := m.CheckVersions();
    }

    /** `_check_versions`: reads every file of the directory, recording the
        version text of each schema file under its prefix and raising the
        prefix's maximum when the version is strictly greater. Stops at the
        first file that cannot be read. */
    method CheckVersions() returns (o: Outcome)
      modifies this
      ensures files == old(files)
      ensures o.Pass? <==> AllReadable(files.Keys)
      ensures o.Fail? ==> o.error == ValueError
      ensures o.Pass? ==> Checked(old(versions), old(maxVersions), files.Keys, versions, maxVersions)
      ensures forall p :: VersionsAt(old(versions), p) <= VersionsAt(versions, p)
      ensures forall p :: !VersionLess(MaxAt(maxVersions, p), MaxAt(old(maxVersions), p))
    {
      ghost var v0, m0 := versions, maxVersions;
      var remaining := files.Keys;
      CheckedStart(v0, m0);
      while remaining != {}
        invariant files == old(files) && v0 == old(versions) && m0 == old(maxVersions)
        invariant remaining <= files.Keys
        invariant AllReadable(files.Keys - remaining)
        invariant Checked(v0, m0, files.Keys - remaining, versions, maxVersions)
        decreases remaining
      {
        var name :| name in remaining;
        ghost var done := files.Keys - remaining;
        ghost var v1, m1 := versions, maxVersions;
        o := TakeFile(name);
        if o.Fail? {
          CheckedGrows(v0, m0, done, v1, m1, versions);
          return;
        }
        CheckedStep(v0, m0, done, name, v1, m1, versions, maxVersions);
        remaining := remaining - {name};
        assert files.Keys - remaining == done + {name};
      }
      CheckedGrows(v0, m0, files.Keys, versions, maxVersions, versions);
      return Pass;
    }

    /** One step of `_check_versions`: reads the file `name`. A schema file's
        version text is recorded as soon as its name splits, before the
        version itself is parsed. */
    method TakeFile(name: string) returns (o: Outcome)
      modifies this
      ensures files == old(files)
      ensures o.Pass? <==> Readable(name)
      ensures o.Fail? ==> o.error == ValueError && maxVersions == old(maxVersions)
      ensures forall p :: VersionsAt(versions, p) == VersionsAt(old(versions), p) + StepTexts(name, p)
      ensures o.Pass? ==> forall p :: MaxAt(maxVersions, p) == StepMax(MaxAt(old(maxVersions), p), name, p)
    {
      var entry := EntryOf(name);
      if entry.Err? {
        return Fail(ValueError);
      }
      if entry.value.Some? {
        var e := entry.value.value;
        versions := versions[e.prefix := VersionsAt(versions, e.prefix) + {e.versionText}];
        var vers := ParseRelease(e.versionText);
        if vers.Err? {
          return Fail(ValueError);
        }
        if VersionLess(MaxAt(maxVersions, e.prefix), vers.value) {
          maxVersions := maxVersions[e.prefix := vers.value];
        }
      }
      return Pass;
    }

    /** `write_new_schema`: checks the prefix, reads the directory again,
        settles on the version to write, and writes the file unless that
        version is already recorded for the prefix and overwriting is off
        (FileExistsError). Nothing is written when anything fails. */
    method WriteNewSchema(content: string, prefix: Option<string>, incMicro: bool, incMinor: bool, incMajor: bool,
                          version: Option<string>, overwrite: bool)
      returns (o: Outcome)
      modifies this
      ensures o.Fail? ==> files == old(files)
      ensures ValidatePrefix(prefix).Err? ==>
        o == Fail(ValueError) && versions == old(versions) && maxVersions == old(maxVersions)
      ensures ValidatePrefix(prefix).Ok? && !AllReadable(old(files).Keys) ==> o == Fail(ValueError)
      ensures ValidatePrefix(prefix).Ok? && AllReadable(old(files).Keys) ==>
        Checked(old(versions), old(maxVersions), old(files).Keys, versions, maxVersions)
      ensures var p := ValidatePrefix(prefix);
        p.Ok? && AllReadable(old(files).Keys) ==>
        var nv := NewVersionText(version, MaxAt(maxVersions, p.value), incMicro, incMinor, incMajor);
        if nv.Err? then o == Fail(ValueError)
        else if nv.value in VersionsAt(versions, p.value) && !overwrite then o == Fail(FileExistsError)
        else o == Pass && files == old(files)[FileName(p.value, nv.value) := content]
    {
      var p := ValidatePrefix(prefix);
      if p.Err? {
        return Fail(p.error);
      }
      o := CheckVersions();
      if o.Fail? {
        return;
      }
      var newVersion := NewVersionText(version, MaxAt(maxVersions, p.value), incMicro, incMinor, incMajor);
      if newVersion.Err? {
        return Fail(newVersion.error);
      }
      if newVersion.value in VersionsAt(versions, p.value) && !overwrite {
        return Fail(FileExistsError);
      }
      files := files[FileName(p.value, newVersion.value) := content];
      return Pass;
    }
  }
}

/** The system version of a macOS installer: a `major.minor[.patch]` version
    string with a build string, its numeric rank, the `<` comparison used to
    sort database sections, the marketing-name table and the two string forms
    the rest of the program uses (the `version_build` key and the long
    human-readable form). */
module SystemVersions {
  import opened Wrappers
  import opened Text

  /** Immutable once built; `version` and `buildVersion` are the strings the
      value was parsed from, kept verbatim. */
  datatype SystemVersion = SystemVersion(
    major: int,
    minor: int,
    patch: int,
    version: string,
    buildVersion: string)

  /** What the initializer demands of its caller: it force-unwraps `Int(token)`
      for every token once it has decided that there are two or three of them,
      so any such token that is not an integer traps. */
  predicate Parsable(version: string)
  {
    var tokens := Split(version, '.');
    (|tokens| == 2 || |tokens| == 3) ==> forall i :: 0 <= i < |tokens| ==> IsInteger(tokens[i])
  }

  /** `init?(version:buildVersion:)`: split on "." dropping empty pieces; two
      tokens give patch 0, three give the third as patch, any other count fails. */
  function Parse(version: string, buildVersion: string): (r: Option<SystemVersion>)
    requires Parsable(version)
    ensures r.Some? <==> |Split(version, '.')| == 2 || |Split(version, '.')| == 3
    ensures r.Some? ==> r.value.version == version && r.value.buildVersion == buildVersion
    ensures r.Some? ==> (r.value.major == IntValue(Split(version, '.')[0])
                         && r.value.minor == IntValue(Split(version, '.')[1]))
    ensures r.Some? && |Split(version, '.')| == 2 ==> r.value.patch == 0
    ensures r.Some? && |Split(version, '.')| == 3 ==> r.value.patch == IntValue(Split(version, '.')[2])
  {
    var tokens := Split(version, '.');
    if |tokens| == 2 then
      Some(SystemVersion(IntValue(tokens[0]), IntValue(tokens[1]), 0, version, buildVersion))
    else if |tokens| == 3 then
      Some(SystemVersion(IntValue(tokens[0]), IntValue(tokens[1]), IntValue(tokens[2]), version, buildVersion))
    else
      None
  }

  /** The dotted text of a version, the form `Parse` reads. */
  function VersionText(major: int, minor: int, patch: Option<int>): string
  {
    DecimalText(major) + "." + DecimalText(minor) + (if patch.Some? then "." + DecimalText(patch.value) else "")
  }

  /** Parsing the dotted text of any two- or three-part version succeeds and
      gives back its numbers (patch 0 when absent) and both strings verbatim. */
  lemma ParseVersionText(major: int, minor: int, patch: Option<int>, build: string)
    ensures Parsable(VersionText(major, minor, patch))
    ensures Parse(VersionText(major, minor, patch), build)
         == Some(SystemVersion(major, minor, if patch.Some? then patch.value else 0, VersionText(major, minor, patch), build))
  {
    var a, b := DecimalText(major), DecimalText(minor);
    DecimalNoDot(major);
    DecimalNoDot(minor);
    DecimalRoundTrip(major);
    DecimalRoundTrip(minor);
    if patch.Some? {
      var c := DecimalText(patch.value);
      DecimalNoDot(patch.value);
      DecimalRoundTrip(patch.value);
      SplitTriple(a, b, c, '.');
      assert VersionText(major, minor, patch) == a + ['.'] + b + ['.'] + c;
    } else {
      SplitPair(a, b, '.');
      assert VersionText(major, minor, patch) == a + ['.'] + b;
    }
  }

  /** `getNumericVersion`. */
  function Rank(v: SystemVersion): int
  {
    v.major * 1000 + v.minor * 10 + v.patch
  }

  /** The `<` operator as written: a smaller rank wins, and otherwise a shorter
      build string wins, and otherwise the lexicographic order of the build
      strings decides. It never asks whether `lhs` is the larger one first. */
  predicate Less(lhs: SystemVersion, rhs: SystemVersion)
  {
    Rank(lhs) < Rank(rhs) || |lhs.buildVersion| < |rhs.buildVersion| || LexLess(lhs.buildVersion, rhs.buildVersion)
  }

  /** No version is less than itself. */
  lemma LessIrreflexive(v: SystemVersion)
    ensures !Less(v, v)
  {
    LexLessIrreflexive(v.buildVersion);
  }

  /** A strictly smaller rank makes `<` hold whatever the builds are. */
  lemma LessByRank(a: SystemVersion, b: SystemVersion)
    requires Rank(a) < Rank(b)
    ensures Less(a, b)
  {
  }

  /** `<` is not asymmetric: 10.15.0 (19A1) and 10.12.5 (16F73) are each less
      than the other (the first by its shorter build, the second by rank). */
  lemma LessNotAsymmetric()
    ensures Parsable("10.15.0") && Parsable("10.12.5")
    ensures var x := Parse("10.15.0", "19A1");
            var y := Parse("10.12.5", "16F73");
            x.Some? && y.Some? && Less(x.value, y.value) && Less(y.value, x.value)
  {
    var x := SystemVersion(10, 15, 0, "10.15.0", "19A1");
    var y := SystemVersion(10, 12, 5, "10.12.5", "16F73");
    ParseCatalina();
    ParseSierra();
    assert Less(x, y) && Less(y, x);
  }

  lemma ParseCatalina()
    ensures Parsable("10.15.0") && Parse("10.15.0", "19A1") == Some(SystemVersion(10, 15, 0, "10.15.0", "19A1"))
  {
    assert DecimalText(10) == "10" && DecimalText(15) == "15" && DecimalText(0) == "0";
    ParseVersionText(10, 15, Some(0), "19A1");
    assert VersionText(10, 15, Some(0)) == "10.15.0";
  }

  lemma ParseSierra()
    ensures Parsable("10.12.5") && Parse("10.12.5", "16F73") == Some(SystemVersion(10, 12, 5, "10.12.5", "16F73"))
  {
    assert DecimalText(10) == "10" && DecimalText(12) == "12" && DecimalText(5) == "5";
    ParseVersionText(10, 12, Some(5), "16F73");
    assert VersionText(10, 12, Some(5)) == "10.12.5";
  }

  /** Not even at equal rank: 10.12.6 (16G29) and 10.12.6 (16G1036) are each
      less than the other (the first by length, the second lexicographically). */
  lemma LessNotAsymmetricAtEqualRank()
    ensures Parsable("10.12.6")
    ensures var x := Parse("10.12.6", "16G29");
            var y := Parse("10.12.6", "16G1036");
            x.Some? && y.Some? && Rank(x.value) == Rank(y.value)
            && Less(x.value, y.value) && Less(y.value, x.value)
  {
    assert DecimalText(10) == "10" && DecimalText(12) == "12" && DecimalText(6) == "6";
    ParseVersionText(10, 12, Some(6), "16G29");
    ParseVersionText(10, 12, Some(6), "16G1036");
    assert VersionText(10, 12, Some(6)) == "10.12.6";
    assert LexLess("16G1036", "16G29");
  }

  /** The order the comparison evidently intends: rank first; at equal rank a
      shorter build first; at equal length the lexicographic order. */
  predicate Precedes(a: SystemVersion, b: SystemVersion)
  {
    || Rank(a) < Rank(b)
    || (Rank(a) == Rank(b) && |a.buildVersion| < |b.buildVersion|)
    || (Rank(a) == Rank(b) && |a.buildVersion| == |b.buildVersion| && LexLess(a.buildVersion, b.buildVersion))
  }

  /** `Precedes` is a strict order: irreflexive, asymmetric and transitive. */
  lemma PrecedesStrictOrder(a: SystemVersion, b: SystemVersion, c: SystemVersion)
    ensures !Precedes(a, a)
    ensures Precedes(a, b) ==> !Precedes(b, a)
    ensures Precedes(a, b) && Precedes(b, c) ==> Precedes(a, c)
  {
    LexLessIrreflexive(a.buildVersion);
    if Precedes(a, b) && LexLess(a.buildVersion, b.buildVersion) {
      LexLessAsymmetric(a.buildVersion, b.buildVersion);
    }
    if LexLess(a.buildVersion, b.buildVersion) && LexLess(b.buildVersion, c.buildVersion) {
      LexLessTransitive(a.buildVersion, b.buildVersion, c.buildVersion);
    }
  }

  /** ... and total: two versions it does not order have the same rank and
      the same build string. */
  lemma PrecedesTotal(a: SystemVersion, b: SystemVersion)
    requires Rank(a) != Rank(b) || a.buildVersion != b.buildVersion
    ensures Precedes(a, b) || Precedes(b, a)
  {
    if Rank(a) == Rank(b) && |a.buildVersion| == |b.buildVersion| {
      LexLessConnected(a.buildVersion, b.buildVersion);
    }
  }

  /** The comparison as written holds of every pair the intended order puts
      first; its defect is that it also holds of some reversed pairs. */
  lemma PrecedesImpliesLess(a: SystemVersion, b: SystemVersion)
    requires Precedes(a, b)
    ensures Less(a, b)
  {
  }

  /** `getOSName`: the marketing name, chosen by `minor` alone. */
  function OSName(minor: int): string
  {
    match minor
    case 0 => "Mac OS X Cheetah"
    case 1 => "Mac OS X Puma"
    case 2 => "Mac OS X Jaguar"
    case 3 => "Mac OS X Panther"
    case 4 => "Mac OS X Tiger"
    case 5 => "Mac OS X Leopard"
    case 6 => "Mac OS X Snow Leopard"
    case 7 => "Mac OS X Lion"
    case 8 => "OS X Mountain Lion"
    case 9 => "OS X Mavericks"
    case 10 => "OS X Yosemite"
    case 11 => "OS X El Capitan"
    case 12 => "macOS Sierra"
    case 13 => "macOS High Sierra"
    case 14 => "macOS Mojave"
    case 15 => "macOS Catalina"
    case _ => "macOS 10." + DecimalText(minor)
  }

  /** Outside the table the name is "macOS 10." followed by the minor number,
      which reads back as that number. */
  lemma OSNameFallback(minor: int)
    requires minor < 0 || minor > 15
    ensures StartsWith(OSName(minor), "macOS 10.")
    ensures IsInteger(OSName(minor)[9..]) && IntValue(OSName(minor)[9..]) == minor
  {
    DecimalRoundTrip(minor);
    assert OSName(minor)[9..] == DecimalText(minor);
  }

  /** `getOSVersionString`: "<name> <version> (<build>)". */
  function OSVersionString(v: SystemVersion): string
  {
    OSName(v.minor) + " " + v.version + " (" + v.buildVersion + ")"
  }

  /** `getOSVersionShortString(format: "%@_%@")`, the database key. */
  function VersionKey(v: SystemVersion): string
  {
    v.version + "_" + v.buildVersion
  }

  /** The long form starts with the name and ends with the build in
      parentheses; the version string sits between them verbatim. */
  lemma OSVersionStringParts(version: string, build: string)
    requires Parsable(version) && Parse(version, build).Some?
    ensures var v := Parse(version, build).value;
            var s := OSVersionString(v);
            var n := |OSName(v.minor)|;
            StartsWith(s, OSName(v.minor) + " ")
            && s[n + 1..n + 1 + |version|] == version
            && EndsWith(s, " (" + build + ")")
  {
  }

  /** The key of a parsed version is the two input strings joined by "_". */
  lemma VersionKeyOfParse(version: string, build: string)
    requires Parsable(version) && Parse(version, build).Some?
    ensures VersionKey(Parse(version, build).value) == version + "_" + build
  {
  }
}

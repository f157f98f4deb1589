/** The updater configuration of one machine board (`Config.plist`): the
    validators that turn a parsed property-list dictionary into firmware
    descriptors, and the two renderers. */
module FirmwareConfig {
  import opened Wrappers
  import opened Text
  import opened Writers

  /** A parsed property-list value. A real node carries, besides its value,
      the text `String(Double)` prints for it; floating-point formatting is
      not modelled. */
  datatype Plist =
    | PString(s: string)
    | PInteger(n: int)
    | PReal(x: real, description: string)
    | PBool(b: bool)
    | PArray(items: seq<Plist>)
    | PDict(entries: map<string, Plist>)

  type Dictionary = map<string, Plist>

  // The typed look-ups `dict[key] as? T`.

  function StringAt(d: Dictionary, key: string): Option<string>
  {
    if key in d && d[key].PString? then Some(d[key].s) else None
  }

  function IntAt(d: Dictionary, key: string): Option<int>
  {
    if key in d && d[key].PInteger? then Some(d[key].n) else None
  }

  /** `as? Double`, giving the text of the value as `String(_:)` prints it. */
  function DoubleTextAt(d: Dictionary, key: string): Option<string>
  {
    if key in d && d[key].PReal? then Some(d[key].description) else None
  }

  predicate IsDict(v: Plist) { v.PDict? }

  /** `as? [[String : Any]]`: an array whose every element is a dictionary. */
  function DictArrayAt(d: Dictionary, key: string): (r: Option<seq<Dictionary>>)
    ensures r.Some? <==> key in d && d[key].PArray? && forall i :: 0 <= i < |d[key].items| ==> IsDict(d[key].items[i])
    ensures r.Some? ==> |r.value| == |d[key].items|
                        && forall i :: 0 <= i < |r.value| ==> d[key].items[i] == PDict(r.value[i])
  {
    if key in d && d[key].PArray? && forall i :: 0 <= i < |d[key].items| ==> IsDict(d[key].items[i]) then
      Some(seq(|d[key].items|, i requires 0 <= i < |d[key].items| => d[key].items[i].entries))
    else None
  }

  const FirmwareKey := "Firmware"
  const VendorKey := "Ridge Silicon Vendor ID"
  const DeviceKey := "Ridge Silicon Device ID"
  const RevisionKey := "Ridge Silicon Revision"
  const VersionKey := "Version"
  const RidgeVersionKey := "Ridge Firmware Version"
  const ThunderboltKey := "Thunderbolt"

  /** `ThunderboltFirmwareInfo`: one firmware binary and the silicon it is for. */
  datatype FirmwareInfo = FirmwareInfo(
    fileName: string,
    version: string,
    vendorID: int,
    deviceID: int,
    revision: int)

  /** `ThunderboltFirmwareConfig`: the firmware entries of one board. */
  datatype Config = Config(firmwares: seq<FirmwareInfo>)

  /** `ThunderboltFirmwareInfo.init?(info:)`: succeeds exactly when the file
      name is a string, the three silicon identifiers are integers and
      `Version` is a real — even when `Ridge Firmware Version` is present, whose
      value is then the one stored. The other fields are copied unchanged. */
  function ParseInfo(info: Dictionary): (r: Option<FirmwareInfo>)
    ensures r.Some? <==> (StringAt(info, FirmwareKey).Some? && IntAt(info, VendorKey).Some?
                          && IntAt(info, DeviceKey).Some? && IntAt(info, RevisionKey).Some?
                          && DoubleTextAt(info, VersionKey).Some?)
    ensures r.Some? ==> && r.value.fileName == info[FirmwareKey].s
                        && r.value.vendorID == info[VendorKey].n
                        && r.value.deviceID == info[DeviceKey].n
                        && r.value.revision == info[RevisionKey].n
    ensures r.Some? ==> r.value.version == (if DoubleTextAt(info, RidgeVersionKey).Some?
                                            then info[RidgeVersionKey].description
                                            else info[VersionKey].description)
  {
    match StringAt(info, FirmwareKey)
    case None => None
    case Some(fileName) =>
      match IntAt(info, VendorKey)
      case None => None
      case Some(vendorID) =>
        match IntAt(info, DeviceKey)
        case None => None
        case Some(deviceID) =>
          match IntAt(info, RevisionKey)
          case None => None
          case Some(revision) =>
            match DoubleTextAt(info, VersionKey)
            case None => None
            case Some(version) =>
              var stored := match DoubleTextAt(info, RidgeVersionKey)
                            case Some(ridge) => ridge
                            case None => version;
              Some(FirmwareInfo(fileName, stored, vendorID, deviceID, revision))
  }

  /** The dictionary a descriptor is written as (with its version as a real
      node of the given value); the inverse of `ParseInfo`. */
  function InfoDictionary(f: FirmwareInfo, value: real): Dictionary
  {
    map[FirmwareKey := PString(f.fileName),
        VendorKey := PInteger(f.vendorID),
        DeviceKey := PInteger(f.deviceID),
        RevisionKey := PInteger(f.revision),
        VersionKey := PReal(value, f.version)]
  }

  /** Every descriptor survives being written as a dictionary and read back. */
  lemma InfoRoundTrip(f: FirmwareInfo, value: real)
    ensures ParseInfo(InfoDictionary(f, value)) == Some(f)
  {
    var d := InfoDictionary(f, value);
    assert RidgeVersionKey !in d;
  }

  /** Keys the validator does not read do not change its answer. */
  lemma ParseInfoIgnoresOtherKeys(info: Dictionary, key: string, v: Plist)
    requires key !in {FirmwareKey, VendorKey, DeviceKey, RevisionKey, VersionKey, RidgeVersionKey}
    ensures ParseInfo(info[key := v]) == ParseInfo(info)
  {
    var d := info[key := v];
    assert StringAt(d, FirmwareKey) == StringAt(info, FirmwareKey);
    assert IntAt(d, VendorKey) == IntAt(info, VendorKey);
    assert IntAt(d, DeviceKey) == IntAt(info, DeviceKey);
    assert IntAt(d, RevisionKey) == IntAt(info, RevisionKey);
    assert DoubleTextAt(d, VersionKey) == DoubleTextAt(info, VersionKey);
    assert DoubleTextAt(d, RidgeVersionKey) == DoubleTextAt(info, RidgeVersionKey);
  }

  /** `compactMap` of `ParseInfo`: the valid entries' descriptors, in order. */
  function CompactInfos(items: seq<Dictionary>): (r: seq<FirmwareInfo>)
    ensures |r| <= |items|
  {
    if |items| == 0 then []
    else
      var rest := CompactInfos(items[1..]);
      match ParseInfo(items[0])
      case Some(f) => [f] + rest
      case None => rest
  }

  /** `CompactInfos` distributes over concatenation ... */
  lemma {:induction false} CompactInfosAppend(a: seq<Dictionary>, b: seq<Dictionary>)
    ensures CompactInfos(a + b) == CompactInfos(a) + CompactInfos(b)
  {
    if |a| > 0 {
      assert (a + b)[0] == a[0];
      assert (a + b)[1..] == a[1..] + b;
      CompactInfosAppend(a[1..], b);
    } else {
      assert a + b == b;
    }
  }

  /** ... and keeps a single entry exactly when it is valid; together these
      say it is the valid entries in input order, invalid ones dropped. */
  lemma CompactInfosSingle(d: Dictionary)
    ensures CompactInfos([d]) == if ParseInfo(d).Some? then [ParseInfo(d).value] else []
  {
    assert [d][1..] == [];
  }

  /** A descriptor is kept exactly when it is the parse of some entry. */
  lemma {:induction false} CompactInfosMembers(items: seq<Dictionary>, f: FirmwareInfo)
    ensures f in CompactInfos(items) <==> exists j :: 0 <= j < |items| && ParseInfo(items[j]) == Some(f)
  {
    if |items| > 0 {
      CompactInfosMembers(items[1..], f);
      if exists j :: 0 <= j < |items| && ParseInfo(items[j]) == Some(f) {
        var j :| 0 <= j < |items| && ParseInfo(items[j]) == Some(f);
        if j > 0 {
          assert ParseInfo(items[1..][j - 1]) == Some(f);
        }
      }
      if exists j :: 0 <= j < |items[1..]| && ParseInfo(items[1..][j]) == Some(f) {
        var j :| 0 <= j < |items[1..]| && ParseInfo(items[1..][j]) == Some(f);
        assert ParseInfo(items[j + 1]) == Some(f);
      }
    }
  }

  /** When every entry is valid nothing is dropped. */
  lemma {:induction false} CompactInfosAllValid(items: seq<Dictionary>)
    requires forall j :: 0 <= j < |items| ==> ParseInfo(items[j]).Some?
    ensures |CompactInfos(items)| == |items|
    ensures forall j :: 0 <= j < |items| ==> CompactInfos(items)[j] == ParseInfo(items[j]).value
  {
    if |items| > 0 {
      CompactInfosAllValid(items[1..]);
    }
  }

  /** `ThunderboltFirmwareConfig` from the loaded root dictionary: it fails
      unless `Thunderbolt` is an array of dictionaries, and otherwise keeps the
      entries that validate. */
  function ParseConfig(root: Dictionary): (r: Option<Config>)
    ensures r.Some? <==> DictArrayAt(root, ThunderboltKey).Some?
    ensures r.Some? ==> r.value.firmwares == CompactInfos(DictArrayAt(root, ThunderboltKey).value)
    ensures r.Some? ==> |r.value.firmwares| <= |root[ThunderboltKey].items|
  {
    match DictArrayAt(root, ThunderboltKey)
    case None => None
    case Some(infos) => Some(Config(CompactInfos(infos)))
  }

  /** `init?(config:)`: the file must load as a dictionary (`None` when it is
      missing or not a dictionary), then `ParseConfig` decides. */
  function LoadConfig(file: Option<Dictionary>): (r: Option<Config>)
    ensures file.None? ==> r.None?
    ensures file.Some? ==> r == ParseConfig(file.value)
  {
    match file
    case None => None
    case Some(root) => ParseConfig(root)
  }

  /** A root dictionary without the `Thunderbolt` key (a board with only USB-C
      information) has no configuration; one with an array of all-valid
      entries keeps them all. */
  lemma ParseConfigCases(root: Dictionary)
    ensures ThunderboltKey !in root ==> ParseConfig(root).None?
    ensures DictArrayAt(root, ThunderboltKey).Some?
            && (forall j :: 0 <= j < |DictArrayAt(root, ThunderboltKey).value| ==> ParseInfo(DictArrayAt(root, ThunderboltKey).value[j]).Some?)
            ==> |ParseConfig(root).value.firmwares| == |root[ThunderboltKey].items|
  {
    if DictArrayAt(root, ThunderboltKey).Some? {
      var infos := DictArrayAt(root, ThunderboltKey).value;
      if forall j :: 0 <= j < |infos| ==> ParseInfo(infos[j]).Some? {
        CompactInfosAllValid(infos);
      }
    }
  }

  // ---------------------------------------------------------------------------
  // Rendering

  /** The five lines of a descriptor's `dump`. */
  function InfoLines(f: FirmwareInfo): (r: seq<Line>)
    ensures |r| == 5 && forall i :: 0 <= i < 5 ==> r[i].depth == 0
  {
    [ Line(0, "- Firmware Version #: " + f.version),
      Line(0, "- Firmware File Name: " + f.fileName),
      Line(0, "- Hardware Vendor ID: 0x" + HexText(f.vendorID)),
      Line(0, "- Hardware Device ID: 0x" + HexText(f.deviceID)),
      Line(0, "- Hardware Revisions: " + DecimalText(f.revision)) ]
  }

  /** The identifiers are printed as "0x" and upper-case hexadecimal digits
      that read back as the identifier. */
  lemma InfoLinesHex(f: FirmwareInfo)
    requires f.vendorID >= 0 && f.deviceID >= 0
    ensures var prefix := "- Hardware Vendor ID: 0x";
            var line := InfoLines(f)[2].text;
            StartsWith(line, prefix) && IsRadixDigits(line[|prefix|..], 16)
            && RadixValue(line[|prefix|..], 16) == f.vendorID
    ensures var prefix := "- Hardware Device ID: 0x";
            var line := InfoLines(f)[3].text;
            StartsWith(line, prefix) && IsRadixDigits(line[|prefix|..], 16)
            && RadixValue(line[|prefix|..], 16) == f.deviceID
  {
    HexDigits(f.vendorID);
    HexDigits(f.deviceID);
    assert InfoLines(f)[2].text[|"- Hardware Vendor ID: 0x"|..] == HexText(f.vendorID);
    assert InfoLines(f)[3].text[|"- Hardware Device ID: 0x"|..] == HexText(f.deviceID);
  }

  /** `ThunderboltFirmwareInfo.dump`: five `println` calls at the writer's
      level; indentation is unchanged. */
  method DumpInfo(f: FirmwareInfo, w: StringWriter, ghost indentation: int, ghost column: int)
    requires w.indentation == indentation >= 0 && w.column == column
    modifies w
    ensures w.buffer == old(w.buffer) + Layout(InfoLines(f), indentation, column)
    ensures w.indentation == indentation && w.column == 0
  {
    var lines := InfoLines(f);
    ghost var b0 := w.buffer;
    w.Println(lines[0].text);
    ghost var b1 := w.buffer;
    w.Println(lines[1].text);
    ghost var b2 := w.buffer;
    w.Println(lines[2].text);
    ghost var b3 := w.buffer;
    w.Println(lines[3].text);
    ghost var b4 := w.buffer;
    w.Println(lines[4].text);
    LayoutSteps([b0, b1, b2, b3, b4, w.buffer], lines, 5, indentation, column);
  }

  /** The header of firmware `index`'s section. */
  function FirmwareHeader(index: int): string
  {
    "* Firmware " + DecimalText(index)
  }

  /** The section of firmware `index`: its header and its descriptor's lines
      one level deeper. */
  function FirmwareSection(index: nat, f: FirmwareInfo): seq<Line>
  {
    Section(FirmwareHeader(index), InfoLines(f))
  }

  /** The firmware headers "* Firmware 0" up to "* Firmware n-1". */
  function FirmwareHeaders(n: nat): (r: seq<string>)
    ensures |r| == n
    ensures forall i :: 0 <= i < n ==> r[i] == FirmwareHeader(i)
  {
    if n == 0 then [] else FirmwareHeaders(n - 1) + [FirmwareHeader(n - 1)]
  }

  /** The descriptor lines of each firmware, in order. */
  function InfoBodies(fs: seq<FirmwareInfo>): (r: seq<seq<Line>>)
    ensures |r| == |fs|
    ensures forall i :: 0 <= i < |fs| ==> r[i] == InfoLines(fs[i])
  {
    if |fs| == 0 then [] else InfoBodies(fs[..|fs| - 1]) + [InfoLines(fs[|fs| - 1])]
  }

  /** The lines of `dump` for the firmwares of `fs`, numbered from 0. */
  function FirmwareLines(fs: seq<FirmwareInfo>): seq<Line>
  {
    Sections(FirmwareHeaders(|fs|), InfoBodies(fs))
  }

  /** The lines of one more firmware are those of the firmwares before it,
      followed by its section. */
  lemma FirmwareLinesStep(fs: seq<FirmwareInfo>, i: nat)
    requires i < |fs|
    ensures FirmwareLines(fs[..i + 1]) == FirmwareLines(fs[..i]) + FirmwareSection(i, fs[i])
  {
    PrefixStep(fs, i);
    assert FirmwareHeaders(i + 1) == FirmwareHeaders(i) + [FirmwareHeader(i)];
    assert InfoBodies(fs[..i + 1]) == InfoBodies(fs[..i]) + [InfoLines(fs[i])];
    SectionsSnoc(FirmwareHeaders(i), InfoBodies(fs[..i]), FirmwareHeader(i), InfoLines(fs[i]));
  }

  function ConfigLines(c: Config): seq<Line>
  {
    FirmwareLines(c.firmwares)
  }

  /** The depth-0 lines of a configuration's dump are "* Firmware i", one per
      firmware, in order. */
  lemma ConfigTopLevel(fs: seq<FirmwareInfo>)
    ensures TopLevel(FirmwareLines(fs)) == FirmwareHeaders(|fs|)
  {
    SectionsTopLevel(FirmwareHeaders(|fs|), InfoBodies(fs));
  }

  /** One pass of the loop of `ThunderboltFirmwareConfig.dump`: the header of
      firmware `index`, then its descriptor one level deeper. */
  method DumpFirmware(index: int, f: FirmwareInfo, w: StringWriter, ghost indentation: int, ghost column: int)
    requires w.indentation == indentation >= 0 && w.column == column
    modifies w
    ensures w.buffer == old(w.buffer) + LineText(column, indentation, FirmwareHeader(index))
                        + Layout(InfoLines(f), indentation + 1, 0)
    ensures w.indentation == indentation && w.column == 0
  {
    w.Println(FirmwareHeader(index));
    DumpNestedInfo(f, w, indentation);
  }

  /** `indent()`, the descriptor's `dump`, `outdent()`. */
  method DumpNestedInfo(f: FirmwareInfo, w: StringWriter, ghost indentation: int)
    requires w.indentation == indentation >= 0 && w.column == 0
    modifies w
    ensures w.buffer == old(w.buffer) + Layout(InfoLines(f), indentation + 1, 0)
    ensures w.indentation == indentation && w.column == 0
  {
    w.Indent();
    DumpInfo(f, w, indentation + 1, 0);
    w.Outdent();
  }

  /** `ThunderboltFirmwareConfig.dump`: for each firmware in order, its header,
      then the descriptor one level deeper; indentation is unchanged. */
  method DumpConfig(c: Config, w: StringWriter, ghost ind: int, ghost col: int)
    requires w.indentation == ind >= 0 && w.column == col
    modifies w
    ensures w.buffer == old(w.buffer) + Layout(ConfigLines(c), ind, col)
    ensures w.indentation == ind
    ensures w.column == if |c.firmwares| == 0 then col else 0
  {
    var fs := c.firmwares;
    for i := 0 to |fs|
      invariant w.buffer == old(w.buffer) + Layout(FirmwareLines(fs[..i]), ind, col)
      invariant w.indentation == ind
      invariant w.column == if i == 0 then col else 0
    {
      ghost var before, at := w.buffer, w.column;
      DumpFirmware(i, fs[i], w, ind, at);
      FirmwareLinesStep(fs, i);
      SectionExtend(old(w.buffer), before, w.buffer, FirmwareLines(fs[..i]),
                    FirmwareHeader(i), InfoLines(fs[i]), ind, col, at);
    }
    PrefixWhole(fs);
  }
}

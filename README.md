# ThunderboltFirmwareQuery in Dafny

This project models the core of ThunderboltFirmwareQuery, a macOS command-line
tool. The tool opens macOS installers, reads the Thunderbolt firmware
configuration of every Mac board in the installer's firmware update package,
and keeps the results in a database keyed by installer version. The model
covers these parts:

- **System versions** (`SystemVersions`): parsing `major.minor[.patch]` with a
  build string, the numeric rank, the `<` comparison, the marketing-name table,
  the long version string and the `version_build` key.
- **Firmware configuration** (`FirmwareConfig`): validating a board's
  `Config.plist` and the per-firmware descriptors in it, and the two `dump`
  renderers.
- **Firmware record** (`FirmwareRecord`): the map from board identifier to
  configuration, and its `dump`.
- **Firmware database** (`FirmwareDatabase`):
  - a class owning the map from version key to record;
  - `register` with its insert, keep and overwrite cases;
  - `dump`, which parses every key back into a version, skips the malformed
    ones and looks the others up again by their re-formatted key;
  - the Markdown text.
- **String writer** (`Writers`): the indenting text buffer every renderer
  writes into, a class with `buffer`, `indentation` and `column`.
  - Every renderer is specified by the lines it prints, each with its depth
    (`Line`, `Layout`).
  - Lines are built with one shared `Sections` shape: a header, then a body
    one level deeper.
- **The host** (`Host`): the operating system as the pipeline sees it.
  - Fixed tables stand for the files that exist, directory listings and
    property lists.
  - A counter hands out fresh temporary paths.
  - Creating a directory, `hdiutil attach`/`detach`, `pkgutil` and copying a
    folder are operations whose success is left open.
  - Every such step is recorded in a ghost log, with its outcome.
  - `Replay`/`Balanced` say when a log issues a detach for every successful
    attach exactly once, innermost first.
  - `Held` gives the volumes a log really leaves attached. A detach that
    fails leaves its volume attached (`DetachFailures`).
- **Installers** (`Installers`):
  - finding an installer's version, from `BaseSystem.dmg` in
    `SharedSupport` or, failing that, from the `BaseSystem.dmg` inside
    `InstallESD.dmg`;
  - the exact log of each attempt (a *visit*: create a mount point, attach,
    read, detach), stated by `IsVisit`, `IsBaseSystemVisit`,
    `IsInstallESDVisit` and `CreateVisits`;
  - proving that a detach is issued for every image attached on the way
    (`CreateBalanced`), and that the images left attached are exactly those
    whose detach failed (`CreateHeld`).
- **The query** (`FirmwareQuery`):
  - the static reference counter of container disk images
    (`retainDiskImage`/`releaseDiskImage`);
  - creating queries from an installer disk image, with the visits of every
    installer app on it (`AllCreateVisits`, `ListedQueries`);
  - `do`: mount `InstallESD.dmg`, expand `FirmwareUpdate.pkg`, gather the
    configuration of every `Mac-` board folder, clean up;
  - the result's `dump`.

The model follows the code where it misbehaves:
- At count 1, `releaseDiskImage` issues a detach of the image but keeps its
  table entry. `ReleaseTwiceDetachesTwice` shows that a second release then
  issues a detach of the same volume again.
- The failure paths of `do` after `InstallESD.dmg` is mounted return without
  detaching it or releasing the container image. `Do` states which logs
  these returns leave (`FailedLog`), and `FailedLogLeaks` and
  `FailedLogHeld` show that each one leaves exactly that volume attached
  once it was mounted.
- On success `do` issues the detach of `InstallESD.dmg` but ignores its
  outcome; `SuccessLogHeld` shows that a failed detach leaves the volume
  attached.
- `createQueries` leaves the container image attached for the queries it
  hands out. It also leaves the image attached when listing fails or no query
  is made.

## Model

| member | source | states |
|---|---|---|
| SystemVersions.Parse | ThunderboltFirmwareQuery/SystemVersion.swift:30-53 | succeeds exactly when splitting on "." (empty pieces dropped) gives two or three tokens; major and minor are the first two tokens' values; patch is 0 for two tokens and the third token's value for three; both strings are kept verbatim; non-integer tokens trap, so they are a precondition |
| SystemVersions.ParseVersionText | ThunderboltFirmwareQuery/SystemVersion.swift:30-53 | parsing the dotted text of any two- or three-part version gives back its numbers (patch 0 when absent) and both strings |
| SystemVersions.ParseCatalina | ThunderboltFirmwareQuery/SystemVersion.swift:30-53 | "10.15.0" with build "19A1" parses to 10, 15, 0 |
| SystemVersions.ParseSierra | ThunderboltFirmwareQuery/SystemVersion.swift:30-53 | "10.12.5" with build "16F73" parses to 10, 12, 5 |
| SystemVersions.LessIrreflexive | ThunderboltFirmwareQuery/SystemVersion.swift:157-170 | no version is less than itself |
| SystemVersions.LessByRank | ThunderboltFirmwareQuery/SystemVersion.swift:152-162 | a strictly smaller rank (major·1000 + minor·10 + patch) makes `<` true whatever the builds |
| SystemVersions.LessNotAsymmetric | ThunderboltFirmwareQuery/SystemVersion.swift:157-170 | 10.15.0 (19A1) and 10.12.5 (16F73) are each less than the other |
| SystemVersions.LessNotAsymmetricAtEqualRank | ThunderboltFirmwareQuery/SystemVersion.swift:164-169 | at equal rank, 10.12.6 (16G29) and 10.12.6 (16G1036) are each less than the other |
| SystemVersions.PrecedesStrictOrder | ThunderboltFirmwareQuery/SystemVersion.swift:157-170 | the corrected order (rank, then shorter build, then lexicographic build) is irreflexive, asymmetric and transitive |
| SystemVersions.PrecedesTotal | ThunderboltFirmwareQuery/SystemVersion.swift:157-170 | the corrected order relates every two versions that differ in rank or build |
| SystemVersions.PrecedesImpliesLess | ThunderboltFirmwareQuery/SystemVersion.swift:157-170 | every pair the corrected order puts first is also ordered by `<` as written |
| SystemVersions.OSNameFallback | ThunderboltFirmwareQuery/SystemVersion.swift:77-132 | outside minors 0–15 the name is "macOS 10." followed by text that reads back as the minor number |
| SystemVersions.OSVersionStringParts | ThunderboltFirmwareQuery/SystemVersion.swift:135-138 | the long string starts with the name and a space, holds the version verbatim next, and ends with " (build)" |
| SystemVersions.VersionKeyOfParse | ThunderboltFirmwareQuery/SystemVersion.swift:147-150 | the `%@_%@` key of a parsed version is its two input strings joined by "_" |
| Text.SplitTokens | ThunderboltFirmwareQuery/SystemVersion.swift:32 | `split` yields only non-empty tokens free of the separator |
| Text.JoinComponents | ThunderboltFirmwareQuery/ThunderboltFirmwareDatabase.swift:24 | `components(separatedBy:)` keeps every piece: joining them back gives the input |
| Text.ComponentsOfPair | ThunderboltFirmwareQuery/ThunderboltFirmwareDatabase.swift:24-26 | two separator-free strings joined by the separator split into exactly those two |
| Text.LexLessAsymmetric | ThunderboltFirmwareQuery/SystemVersion.swift:169 | the `String` `<` on builds is asymmetric |
| Text.LexLessTransitive | ThunderboltFirmwareQuery/SystemVersion.swift:169 | the `String` `<` on builds is transitive |
| Text.LexLessConnected | ThunderboltFirmwareQuery/SystemVersion.swift:169 | the `String` `<` orders every two distinct builds one way or the other |
| Text.LastIndexOf | ThunderboltFirmwareQuery/StringWriter.swift:57 | `lastIndex(of:)`: none exactly when the character is absent; otherwise an index holding it with none after it |
| Text.DecimalRoundTrip | ThunderboltFirmwareQuery/SystemVersion.swift:46-48 | `Int(_:)` reads back the decimal text of every integer |
| Text.HexDigits | ThunderboltFirmwareQuery/ThunderboltFirmwareConfig.swift:138-140 | `String(n, radix: 16, uppercase: true)` is non-empty, only 0–9 and A–F, and reads back as n |
| Text.Filter | ThunderboltFirmwareQuery/ThunderboltFirmwareQuery.swift:141 | `filter` keeps exactly the names that pass, and no more names than it was given |
| Text.Enumerate | ThunderboltFirmwareQuery/ThunderboltFirmwareRecord.swift:20 | iterating a dictionary visits every entry exactly once, in some order |
| Writers.ColumnAfterTracks | ThunderboltFirmwareQuery/StringWriter.swift:41-60 | while the printed text holds no newline, the recorded column is the length of the buffer's last line |
| Writers.IntendedColumnTracks | ThunderboltFirmwareQuery/StringWriter.swift:55-60 | the corrected bookkeeping keeps the column equal to the last line's length for every text |
| Writers.ColumnDrift | ThunderboltFirmwareQuery/StringWriter.swift:55-60 | printing "a\n" at indentation 1 on a fresh line records column 4 though the last line is empty |
| Writers.LastLineAppendBreak | ThunderboltFirmwareQuery/StringWriter.swift:57-60 | after text holding a newline, the last line is what follows that text's last newline |
| Writers.LayoutAppend | ThunderboltFirmwareQuery/StringWriter.swift:68-75 | printing two runs of lines appends their two layouts, the second starting at column 0 |
| Writers.LayoutShift | ThunderboltFirmwareQuery/StringWriter.swift:41-51 | printing lines k levels deeper is printing them with the indentation raised by k |
| Writers.SectionLayout | ThunderboltFirmwareQuery/StringWriter.swift:68-89 | a header's `println` followed by a body printed between `indent` and `outdent` is the section's layout |
| Writers.SectionsTopLevel | ThunderboltFirmwareQuery/StringWriter.swift:82-89 | in consecutive sections, the lines at the outer level are exactly the headers, in order |
| Writers.StringWriter.constructor | ThunderboltFirmwareQuery/StringWriter.swift:24-31 | a new writer has an empty buffer, indentation 0 and column 0 |
| Writers.StringWriter.ToString | ThunderboltFirmwareQuery/StringWriter.swift:34-37 | returns the buffer and changes nothing |
| Writers.StringWriter.Print | ThunderboltFirmwareQuery/StringWriter.swift:41-60 | appends four spaces per level only at column 0, then the contents verbatim; indentation unchanged; the column as the code computes it |
| Writers.StringWriter.Println | ThunderboltFirmwareQuery/StringWriter.swift:68-75 | appends the printed line and a newline; column 0 afterwards |
| Writers.StringWriter.Indent | ThunderboltFirmwareQuery/StringWriter.swift:82-84 | indentation up by one; buffer and column unchanged |
| Writers.StringWriter.Outdent | ThunderboltFirmwareQuery/StringWriter.swift:86-89 | indentation down by one; buffer and column unchanged |
| Writers.IndentOutdent | ThunderboltFirmwareQuery/StringWriter.swift:82-89 | `indent` then `outdent` restores the whole writer state |
| FirmwareConfig.DictArrayAt | ThunderboltFirmwareQuery/ThunderboltFirmwareConfig.swift:29 | `as? [[String : Any]]` succeeds exactly for an array all of whose elements are dictionaries, keeping every element |
| FirmwareConfig.ParseInfo | ThunderboltFirmwareQuery/ThunderboltFirmwareConfig.swift:76-129 | succeeds exactly when Firmware is a string, the three Ridge Silicon IDs are integers and Version is a number, even when Ridge Firmware Version is present; copies name and IDs unchanged; takes the version text from Ridge Firmware Version when that is a number, else from Version |
| FirmwareConfig.InfoRoundTrip | ThunderboltFirmwareQuery/ThunderboltFirmwareConfig.swift:76-129 | every descriptor written as a dictionary parses back to itself |
| FirmwareConfig.ParseInfoIgnoresOtherKeys | ThunderboltFirmwareQuery/ThunderboltFirmwareConfig.swift:76-129 | keys the validator does not read do not change its answer |
| FirmwareConfig.CompactInfos | ThunderboltFirmwareQuery/ThunderboltFirmwareConfig.swift:36 | `compactMap` keeps no more descriptors than entries |
| FirmwareConfig.CompactInfosAppend | ThunderboltFirmwareQuery/ThunderboltFirmwareConfig.swift:36 | `compactMap` over a concatenation is the concatenation of the two, so the input order is kept |
| FirmwareConfig.CompactInfosSingle | ThunderboltFirmwareQuery/ThunderboltFirmwareConfig.swift:36 | one entry is kept exactly when it is valid |
| FirmwareConfig.CompactInfosMembers | ThunderboltFirmwareQuery/ThunderboltFirmwareConfig.swift:36 | a descriptor is kept exactly when it is the parse of some entry |
| FirmwareConfig.CompactInfosAllValid | ThunderboltFirmwareQuery/ThunderboltFirmwareConfig.swift:36 | when every entry is valid nothing is dropped and the i-th descriptor is the i-th entry's |
| FirmwareConfig.ParseConfig | ThunderboltFirmwareQuery/ThunderboltFirmwareConfig.swift:29-36 | succeeds exactly when Thunderbolt is an array of dictionaries; the firmwares are the valid entries in order |
| FirmwareConfig.LoadConfig | ThunderboltFirmwareQuery/ThunderboltFirmwareConfig.swift:19-37 | fails when the file does not load as a dictionary, otherwise validates the dictionary |
| FirmwareConfig.ParseConfigCases | ThunderboltFirmwareQuery/ThunderboltFirmwareConfig.swift:29-34 | without the Thunderbolt key the configuration is rejected; with an array of entries that all parse, the configuration has one descriptor per entry |
| FirmwareConfig.InfoLines | ThunderboltFirmwareQuery/ThunderboltFirmwareConfig.swift:132-143 | a descriptor's dump is exactly five lines, all at the writer's level |
| FirmwareConfig.InfoLinesHex | ThunderboltFirmwareQuery/ThunderboltFirmwareConfig.swift:138-140 | for non-negative IDs, the vendor and device lines end in "0x" and upper-case hex digits that read back as the IDs |
| FirmwareConfig.DumpInfo | ThunderboltFirmwareQuery/ThunderboltFirmwareConfig.swift:132-143 | appends exactly the layout of the five lines; indentation unchanged |
| FirmwareConfig.FirmwareHeaders | ThunderboltFirmwareQuery/ThunderboltFirmwareConfig.swift:42-44 | the i-th firmware's header is "* Firmware i" |
| FirmwareConfig.FirmwareLinesStep | ThunderboltFirmwareQuery/ThunderboltFirmwareConfig.swift:42-51 | each loop pass adds that firmware's header and its descriptor one level deeper |
| FirmwareConfig.ConfigTopLevel | ThunderboltFirmwareQuery/ThunderboltFirmwareConfig.swift:42-52 | the outer-level lines of a configuration's dump are "* Firmware 0" … "* Firmware n-1", in order |
| FirmwareConfig.DumpFirmware | ThunderboltFirmwareQuery/ThunderboltFirmwareConfig.swift:44 | prints the firmware's header line |
| FirmwareConfig.DumpNestedInfo | ThunderboltFirmwareQuery/ThunderboltFirmwareConfig.swift:46-50 | the descriptor's lines one level deeper, indentation restored |
| FirmwareConfig.DumpConfig | ThunderboltFirmwareQuery/ThunderboltFirmwareConfig.swift:40-52 | appends exactly the layout of the configuration's sections; indentation unchanged |
| FirmwareRecord.BoardHeaders | ThunderboltFirmwareQuery/ThunderboltFirmwareRecord.swift:20-22 | one "- Board ID: id" header per entry, in iteration order |
| FirmwareRecord.RecordTopLevel | ThunderboltFirmwareQuery/ThunderboltFirmwareRecord.swift:18-30 | the outer-level lines of a record's dump are exactly the board headers; an empty record prints nothing |
| FirmwareRecord.RecordLinesStep | ThunderboltFirmwareQuery/ThunderboltFirmwareRecord.swift:20-29 | each loop pass adds the board's header and its configuration one level deeper |
| FirmwareRecord.Boards | ThunderboltFirmwareQuery/ThunderboltFirmwareRecord.swift:20 | the boards in iteration order, one per entry |
| FirmwareRecord.EntriesOfRecord | ThunderboltFirmwareQuery/ThunderboltFirmwareRecord.swift:20 | iterating the record visits every board exactly once, each with its own configuration |
| FirmwareRecord.DumpRecord | ThunderboltFirmwareQuery/ThunderboltFirmwareRecord.swift:18-30 | appends exactly the layout of one section per entry, visiting every entry once; indentation unchanged |
| FirmwareRecord.DumpBoard | ThunderboltFirmwareQuery/ThunderboltFirmwareRecord.swift:22 | prints the board's header line |
| FirmwareRecord.DumpNestedConfig | ThunderboltFirmwareQuery/ThunderboltFirmwareRecord.swift:24-28 | the configuration's lines one level deeper, indentation restored |
| FirmwareRecord.DumpBoards | ThunderboltFirmwareQuery/ThunderboltFirmwareRecord.swift:20-29 | the loop appends the layout of the entries' sections in order |
| FirmwareDatabase.Registered | ThunderboltFirmwareQuery/ThunderboltFirmwareDatabase.swift:115-132 | an absent key is inserted; a present key is kept without overwrite and replaced wholesale with it; no other key changes |
| FirmwareDatabase.RegisterIdempotent | ThunderboltFirmwareQuery/ThunderboltFirmwareDatabase.swift:120-130 | registering the same records twice is registering them once |
| FirmwareDatabase.RegisterFirstWins | ThunderboltFirmwareQuery/ThunderboltFirmwareDatabase.swift:120-130 | without overwrite the first records registered for a version stay |
| FirmwareDatabase.RegisterLastWins | ThunderboltFirmwareQuery/ThunderboltFirmwareDatabase.swift:126-129 | with overwrite the last records registered for a version replace what was there |
| FirmwareDatabase.ParseKey | ThunderboltFirmwareQuery/ThunderboltFirmwareDatabase.swift:22-41 | a key is kept exactly when splitting on "_" (empty pieces kept) gives two tokens that parse as a version; a kept key's re-formatted key is the key itself |
| FirmwareDatabase.KeyRoundTrip | ThunderboltFirmwareQuery/ThunderboltFirmwareDatabase.swift:22-51 | the key of a parsed version without "_" parses back to that version |
| FirmwareDatabase.KeySkipsUnderscoredBuild | ThunderboltFirmwareQuery/ThunderboltFirmwareDatabase.swift:24-31 | a build containing "_" gives three tokens, so its key is skipped |
| FirmwareDatabase.KeptVersions | ThunderboltFirmwareQuery/ThunderboltFirmwareDatabase.swift:22-41 | the kept versions are exactly the parses of the keys, and each one's key is present |
| FirmwareDatabase.ParseKeyInjective | ThunderboltFirmwareQuery/ThunderboltFirmwareDatabase.swift:22-51 | two keys that parse to the same version are the same key |
| FirmwareDatabase.KeptKeysPresent | ThunderboltFirmwareQuery/ThunderboltFirmwareDatabase.swift:45-51 | the force-unwrapped lookup by re-formatted key never fails |
| FirmwareDatabase.VersionHeaders | ThunderboltFirmwareQuery/ThunderboltFirmwareDatabase.swift:45-47 | the i-th header is the i-th kept version's header |
| FirmwareDatabase.RecordBodies | ThunderboltFirmwareQuery/ThunderboltFirmwareDatabase.swift:51 | the i-th body is the lines of the i-th visited record |
| FirmwareDatabase.DatabaseTopLevel | ThunderboltFirmwareQuery/ThunderboltFirmwareDatabase.swift:43-54 | the outer-level lines are the title, then one "- <long version string>" per kept version, in the order dumped |
| FirmwareDatabase.CoversStep | ThunderboltFirmwareQuery/ThunderboltFirmwareDatabase.swift:45-54 | each loop pass visits the record stored under that version's key |
| FirmwareDatabase.VersionsLinesStep | ThunderboltFirmwareQuery/ThunderboltFirmwareDatabase.swift:45-54 | each loop pass adds that version's header and its record one level deeper |
| FirmwareDatabase.DumpStorage | ThunderboltFirmwareQuery/ThunderboltFirmwareDatabase.swift:19-55 | prints the title, then one section per kept key, each version once, with that key's record; indentation unchanged |
| FirmwareDatabase.DumpTitled | ThunderboltFirmwareQuery/ThunderboltFirmwareDatabase.swift:43-54 | the title line followed by the version sections |
| FirmwareDatabase.DumpVersions | ThunderboltFirmwareQuery/ThunderboltFirmwareDatabase.swift:45-54 | the loop appends one section per version, in order, each with the record under its key |
| FirmwareDatabase.DumpVersion | ThunderboltFirmwareQuery/ThunderboltFirmwareDatabase.swift:47-53 | the version's header, then its record one level deeper |
| FirmwareDatabase.DumpNestedRecord | ThunderboltFirmwareQuery/ThunderboltFirmwareDatabase.swift:49-53 | the record's lines one level deeper, indentation restored |
| FirmwareDatabase.Database.Empty | ThunderboltFirmwareQuery/ThunderboltFirmwareDatabase.swift:73-76 | the empty database has no keys |
| FirmwareDatabase.Database.Register | ThunderboltFirmwareQuery/ThunderboltFirmwareDatabase.swift:115-132 | the storage becomes the registered map |
| FirmwareDatabase.Database.Dump | ThunderboltFirmwareQuery/ThunderboltFirmwareDatabase.swift:135-138 | the storage's dump |
| FirmwareDatabase.Database.Markdown | ThunderboltFirmwareQuery/ThunderboltFirmwareDatabase.swift:142-149 | the text is the dump laid out by a fresh writer |
| Host.ReplayOnTop | ThunderboltFirmwareQuery/Installer.swift:127-143 | balanced attaches and detaches nested inside an outer attach leave the outer mount alone |
| Host.BalancedAfter | ThunderboltFirmwareQuery/ThunderboltFirmwareQuery.swift:141-153 | balanced events after others leave the mount points awaiting a detach as they were |
| Host.HeldAppend | ThunderboltFirmwareQuery/DiskImageMounter.swift:14-44 | the volumes attached after a log in two parts are those the second part leaves from what the first part left |
| Host.DetachFailuresAppend | ThunderboltFirmwareQuery/DiskImageMounter.swift:37-44 | the failed detaches of a log in two parts are those of each part |
| Host.HeldUnmounting | ThunderboltFirmwareQuery/ThunderboltFirmwareQuery.swift:221-225 | steps that neither attach nor detach (creations, `pkgutil`, copies) leave the attached volumes as they were |
| Host.ReplayAppend | ThunderboltFirmwareQuery/Installer.swift:96-112 | replaying a log in two parts is replaying it whole |
| Host.Host.NewPath | ThunderboltFirmwareQuery/ThunderboltFirmwareQuery.swift:219 | the next fresh path under the temporary directory, different from every path handed out before; nothing logged |
| Host.Host.FreshPathInjective | ThunderboltFirmwareQuery/ThunderboltFirmwareQuery.swift:219 | two fresh paths are equal only when they have the same number, so each `UUID()` name is used once |
| Host.Host.CreateDirectory | ThunderboltFirmwareQuery/FileManager+RandomTemporaryDirectory.swift:18 | logs the creation of the directory with its outcome; nothing attached |
| Host.Host.TemporaryDirectory | ThunderboltFirmwareQuery/FileManager+RandomTemporaryDirectory.swift:14-21 | takes the next fresh path and logs its creation with the outcome; returns that path exactly when the creation succeeded |
| Host.Host.Attach | ThunderboltFirmwareQuery/DiskImageMounter.swift:14-35 | logs the attach with its outcome, which is what it returns; so `Held` counts the mount point attached exactly when it succeeded |
| Host.Host.Detach | ThunderboltFirmwareQuery/DiskImageMounter.swift:37-44 | logs the detach with its outcome, which is what it returns; so `Held` counts the mount point released exactly when it succeeded |
| Host.Host.Expand | ThunderboltFirmwareQuery/ThunderboltFirmwareQuery.swift:221-225 | logs the `pkgutil --expand-full` run with whether it exited with status 0; nothing attached |
| Host.Host.Copy | ThunderboltFirmwareQuery/ThunderboltFirmwareQuery.swift:263-270 | logs the copy of the folder with its outcome; nothing attached |
| Installers.PlistVersion | ThunderboltFirmwareQuery/SystemVersion.swift:57-68 | a version exactly when the file loads and both strings are present and parse; the strings are kept |
| Installers.VisitBalanced | ThunderboltFirmwareQuery/Installer.swift:87-112 | each shape of a visit (nothing; a failed mount point; a failed attach; an attach, balanced events, then the detach of the same mount point) is balanced |
| Installers.VisitCreations | ThunderboltFirmwareQuery/Installer.swift:87-112 | every visit that takes place creates exactly one directory, its mount point, besides those created inside it |
| Installers.InstallESDVisitBalanced | ThunderboltFirmwareQuery/Installer.swift:116-144 | the `InstallESD.dmg` visit is balanced: the detach of the nested `BaseSystem.dmg` is issued before that of `InstallESD.dmg` |
| Installers.FromBaseSystem | ThunderboltFirmwareQuery/Installer.swift:77-113 | the log is a visit of the image with nothing inside, at the next fresh path, and it happens exactly when the image file exists; the counter of fresh paths advances by the one directory it creates; a failed creation or attach returns none; otherwise the version is the one read at the mount point, and a detach is issued, whose outcome is logged and does not change the result |
| Installers.FromInstallESD | ThunderboltFirmwareQuery/Installer.swift:116-144 | the log is always a visit of the image, at the next fresh path; once attached, the visit holds a visit of the `BaseSystem.dmg` at the volume's root, at the fresh path after that; the counter advances by the directories created; the version is the one read during that inner visit; none when the creation or the attach fails |
| Installers.Create | ThunderboltFirmwareQuery/Installer.swift:30-66 | the log is the shared `BaseSystem.dmg` visit followed by the `InstallESD.dmg` visit; both are empty without `InstallESD.dmg`; `InstallESD.dmg` is visited exactly when the first visit gives no version; each visit starts at the next fresh path left by the one before, and the counter advances by the directories created; the installer carries the version found |
| Installers.CreateBalanced | ThunderboltFirmwareQuery/Installer.swift:30-66 | whatever the outcome, a detach is issued for every image attached, innermost first |
| Installers.VisitHeld | ThunderboltFirmwareQuery/Installer.swift:87-112 | a visit changes the attached volumes only once the image is attached: then the mount point is attached for the events inside, and released afterwards exactly when the detach succeeds; its failed detaches are those inside plus its own if it failed |
| Installers.BaseSystemVisitHeld | ThunderboltFirmwareQuery/Installer.swift:77-113 | on a fresh mount point, `getSystemVersion(fromBaseSystem:)` leaves that mount point attached exactly when its detach fails, and nothing else |
| Installers.InstallESDVisitHeld | ThunderboltFirmwareQuery/Installer.swift:116-144 | on fresh mount points, `getSystemVersion(fromInstallESD:)` leaves attached exactly the mount points whose detach failed, its own or the nested `BaseSystem.dmg`'s |
| Installers.FreshAfterBaseSystemVisit | ThunderboltFirmwareQuery/Installer.swift:30-66 | a mount point handed out after a base-system visit is not one that visit left attached |
| Installers.VisitsHeld | ThunderboltFirmwareQuery/Installer.swift:30-66 | the base-system visit followed by an `InstallESD.dmg` visit or none leaves attached exactly the mount points whose detach failed |
| Installers.CreateHeld | ThunderboltFirmwareQuery/Installer.swift:30-66 | whatever `init?(app:)` does on fresh mount points, the images it leaves attached are exactly those whose detach failed |
| Installers.MountInstallESD | ThunderboltFirmwareQuery/Installer.swift:70-73 | attaches `Contents/SharedSupport/InstallESD.dmg` at the mount point |
| FirmwareQuery.Retained | ThunderboltFirmwareQuery/ThunderboltFirmwareQuery.swift:63-74 | an untracked image gets (mountPoint, 1); a tracked one gains one reference and keeps its first mount point; no other image changes |
| FirmwareQuery.Released | ThunderboltFirmwareQuery/ThunderboltFirmwareQuery.swift:78-98 | above one reference the count drops by exactly one with the mount point kept; at one the table is unchanged; no other image changes |
| FirmwareQuery.CountedKept | ThunderboltFirmwareQuery/ThunderboltFirmwareQuery.swift:63-98 | retaining and releasing keep every count at least one |
| FirmwareQuery.ReleaseUndoesRetain | ThunderboltFirmwareQuery/ThunderboltFirmwareQuery.swift:63-98 | on a tracked image, a release undoes a retain |
| FirmwareQuery.ReleaseTwiceDetachesTwice | ThunderboltFirmwareQuery/ThunderboltFirmwareQuery.swift:87-93 | after one retain, a release issues a detach and keeps the entry, so the next release issues a detach of the same volume again and the log stops balancing |
| FirmwareQuery.RetainedTimesStep | ThunderboltFirmwareQuery/ThunderboltFirmwareQuery.swift:141-153 | a retain on top of n retains of one image is n+1 retains |
| FirmwareQuery.ImageReferences.constructor | ThunderboltFirmwareQuery/ThunderboltFirmwareQuery.swift:57 | the counter starts empty |
| FirmwareQuery.ImageReferences.Retain | ThunderboltFirmwareQuery/ThunderboltFirmwareQuery.swift:63-74 | the table becomes the retained table |
| FirmwareQuery.ImageReferences.Release | ThunderboltFirmwareQuery/ThunderboltFirmwareQuery.swift:78-98 | an untracked image is fatal; the table becomes the released table, and at one reference a detach of the recorded mount point is issued and logged with its outcome |
| FirmwareQuery.CreateQuery | ThunderboltFirmwareQuery/ThunderboltFirmwareQuery.swift:102-112 | the log is the two visits of `init?(app:)` on the app, starting at the next fresh path, and it is balanced; the counter advances by the directories created; a query for the installer with the given disk image exactly when those visits yield a version (`BaseSystem.dmg`'s if it has one, otherwise the nested one of `InstallESD.dmg`); the query carries that version |
| FirmwareQuery.MadeQueriesMembers | ThunderboltFirmwareQuery/ThunderboltFirmwareQuery.swift:141-152 | a query is made exactly for each app whose installer yields a version, naming that app and carrying that version and the disk image |
| FirmwareQuery.VisitsLogSnoc | ThunderboltFirmwareQuery/ThunderboltFirmwareQuery.swift:141-152 | one more app's two visits come at the end of the log |
| FirmwareQuery.AllCreateVisitsAt | ThunderboltFirmwareQuery/ThunderboltFirmwareQuery.swift:141-152 | under `AllCreateVisits`, the i-th app's visits are those of `init?(app:)` on the i-th app, starting at the fresh path left by the apps before it |
| FirmwareQuery.AllCreateVisitsOfEach | ThunderboltFirmwareQuery/ThunderboltFirmwareQuery.swift:141-152 | when every app's visits are those of `init?(app:)` on it, each starting at the fresh path left by the apps before it, `AllCreateVisits` holds |
| FirmwareQuery.QueryInstaller | ThunderboltFirmwareQuery/ThunderboltFirmwareQuery.swift:143-151 | the app's visits are those of `init?(app:)` on it, starting at the next fresh path, and are appended to the log, which stays balanced; the counter advances by the directories they create; the app's query is the one its installer's version makes, if any; the image is retained once exactly when a query is made; the queries so far are those made of the apps up to this one |
| FirmwareQuery.QueryInstallers | ThunderboltFirmwareQuery/ThunderboltFirmwareQuery.swift:141-152 | the log is the apps' visits in order, each that of `init?(app:)` on its app at the fresh path left by the apps before it, and it is balanced; the counter advances by the directories created; the queries are those made of the apps, in order, one for each app whose installer yields a version; the image is retained once per query |
| FirmwareQuery.MadeQueriesApps | ThunderboltFirmwareQuery/ThunderboltFirmwareQuery.swift:141-152 | every query made of a listing depends on the image and names one of the listed `Install….app` names |
| FirmwareQuery.ImageStaysAttached | ThunderboltFirmwareQuery/ThunderboltFirmwareQuery.swift:125-153 | after the image is attached at its mount point, balanced visits leave exactly that mount awaiting a detach |
| FirmwareQuery.QueryListing | ThunderboltFirmwareQuery/ThunderboltFirmwareQuery.swift:132-153 | no event and no query when listing the mount point fails; otherwise the log is the visits of the listed installer apps, in order, from the next fresh path on, balanced, and the queries are those made of them (`ListedQueries`); the counter advances by the directories created; the image is retained once per query |
| FirmwareQuery.CreateQueries | ThunderboltFirmwareQuery/ThunderboltFirmwareQuery.swift:116-154 | the mount point is the next fresh path and the log starts with its creation; the counter advances by the directories the log creates; a failed creation or attach ends the log there with no query; after a successful attach the image is the only mount left awaiting a detach, and the rest is as `QueryListing` states, from the fresh path after the mount point; the image is retained once per query made, at the mount point it was attached to |
| FirmwareQuery.GatheredBoards | ThunderboltFirmwareQuery/ThunderboltFirmwareQuery.swift:247-277 | the records hold exactly the listed boards whose configuration parsed, each with that configuration; failed boards are skipped |
| FirmwareQuery.CopiesMountNothing | ThunderboltFirmwareQuery/ThunderboltFirmwareQuery.swift:261-271 | copying board folders attaches and detaches nothing |
| FirmwareQuery.GatherRecords | ThunderboltFirmwareQuery/ThunderboltFirmwareQuery.swift:247-277 | the loop builds exactly the gathered records; when saving, the log holds one copy per recorded board, in order, from its folder to the folder of the same name under the output directory, whatever its outcome; without saving nothing is logged |
| FirmwareQuery.ExpandUpdatePackage | ThunderboltFirmwareQuery/ThunderboltFirmwareQuery.swift:207-230 | nothing logged and none when `FirmwareUpdate.pkg` is missing; otherwise exactly one `pkgutil` run into the next fresh path, and the updater folder inside it exactly when that run succeeded |
| FirmwareQuery.ReadFirmware | ThunderboltFirmwareQuery/ThunderboltFirmwareQuery.swift:207-277 | none exactly on a missing package, a failed `pkgutil` or a failed listing, each with its log; on success the log is the `pkgutil` run and then the copies, and the records are those gathered from the `Mac-` entries of the updater folder |
| FirmwareQuery.Cleanup | ThunderboltFirmwareQuery/ThunderboltFirmwareQuery.swift:279-293 | issues the detach of `InstallESD.dmg`, logged with its outcome, then releases the container image once if there is one |
| FirmwareQuery.MountForQuery | ThunderboltFirmwareQuery/ThunderboltFirmwareQuery.swift:170-202 | creates the version folder when saving, then the next fresh path, then attaches `InstallESD.dmg` there; none exactly when one of these fails, with the log ending at the failed step |
| FirmwareQuery.MountFailedLog | ThunderboltFirmwareQuery/ThunderboltFirmwareQuery.swift:170-202 | every failure while mounting is one of the logs `do` returns `None` with |
| FirmwareQuery.ReadFailedLog | ThunderboltFirmwareQuery/ThunderboltFirmwareQuery.swift:207-240 | every failure after the mount is one of the logs `do` returns `None` with |
| FirmwareQuery.Do | ThunderboltFirmwareQuery/ThunderboltFirmwareQuery.swift:158-296 | `None` leaves every reference count as it was and its log is one of the failure logs: creating the version folder, creating the mount point or the attach fails, the package is missing, or `pkgutil` or the listing fails; on success the package exists and the listing succeeds, the log is the version folder, the mount point, the attach, `pkgutil`, the copies, the detach of `InstallESD.dmg` with its outcome and the release of the container image, which is released once; the result is the installer's version with the records gathered from `Scripts/Tools/USBCUpdater` under the second fresh path (the first is the mount point) |
| FirmwareQuery.OpeningMountsNothing | ThunderboltFirmwareQuery/ThunderboltFirmwareQuery.swift:173-185 | creating the version folder attaches nothing |
| FirmwareQuery.MountedLeaks | ThunderboltFirmwareQuery/ThunderboltFirmwareQuery.swift:197-240 | after a successful mount, a return with or without a `pkgutil` run leaves the volume awaiting a detach |
| FirmwareQuery.FailedAfterOpeningLeaks | ThunderboltFirmwareQuery/ThunderboltFirmwareQuery.swift:187-240 | a failure after the version folder leaves `InstallESD.dmg` awaiting a detach exactly when it was mounted, and nothing else |
| FirmwareQuery.FailedLogLeaks | ThunderboltFirmwareQuery/ThunderboltFirmwareQuery.swift:170-240 | whenever `do` returns `None`, the only mount left awaiting a detach is its `InstallESD.dmg` mount, exactly when that mount succeeded |
| FirmwareQuery.SuccessLogBalanced | ThunderboltFirmwareQuery/ThunderboltFirmwareQuery.swift:187-287 | on success `do`'s own steps are balanced: a detach of the mount is issued once, after the copies |
| FirmwareQuery.SuccessLogHeld | ThunderboltFirmwareQuery/ThunderboltFirmwareQuery.swift:187-287 | on success `do`'s own steps leave `InstallESD.dmg` attached exactly when its detach fails, and change nothing else that is attached |
| FirmwareQuery.FailedAfterOpeningHeld | ThunderboltFirmwareQuery/ThunderboltFirmwareQuery.swift:187-240 | a failure after the version folder leaves `InstallESD.dmg` attached exactly when it was mounted, and nothing else |
| FirmwareQuery.FailedLogHeld | ThunderboltFirmwareQuery/ThunderboltFirmwareQuery.swift:170-240 | whenever `do` returns `None`, the only volume it leaves attached is its `InstallESD.dmg` mount, exactly when that attach succeeded |
| FirmwareQuery.DumpResult | ThunderboltFirmwareQuery/ThunderboltFirmwareQuery.swift:34-43 | the version's header, then its records one level deeper, exactly the database's section for that version |

## Left out

- Diagnostic `print` output is not modelled, nor are the `main.swift` command line, its usage text and exit codes.
- `Serializable.swift` and `PropertyListSerializable.swift` are not part of this model. Loading and saving the database go through Foundation's property-list coders, whose code is not available.
- `IndentingWriter.swift` and `PrettyPrintable.swift` are protocols with no logic. Every renderer takes the `StringWriter` class directly.
- `register` runs inside `DispatchQueue.sync`. It is modelled as a sequential method; thread safety is not modelled.
- The host tables (files, listings, property lists) are fixed. The files `pkgutil` writes are taken to be in the tables already.
- Whether creating a directory, attaching, detaching, running `pkgutil` or copying a board folder succeeds is an arbitrary outcome, recorded in the log. What a copy writes to disk is not tracked.
- `UUID().uuidString` is modelled as a counter of fresh names under the temporary directory.
- `attach` creates a missing mount point directory first. That effect is folded into its arbitrary outcome.
- `Double` to `String` formatting is not modelled: a real value in a property list carries the text it prints as.
- NSNumber bridging is simplified: integers and reals are distinct property-list nodes.
- Strings are sequences of characters. The mix of `Character` counts and UTF-16 offsets in `print` agrees for ASCII text without "\r\n" only.
- Writers.StringWriter.Print: Swift treats "\r\n" as one `Character`, so `lastIndex(of: "\n")` does not find it and `print("a\r\nb")` adds 3 to the column; the model treats "\r" and "\n" as two characters, finds the "\n" and adds 1.
- `Int(_:)` works on unbounded integers. 64-bit overflow in parsing and in the rank is not modelled.
- A file name's `pathExtension == "app"` is modelled as the name ending in ".app".
- Directory listings give names, so `lastPathComponent` is the identity.
- `getOSVersionShortString()` without a format is not used by the modelled code and is left out.
- Writers.StringWriter.Print: a negative indentation at column 0 traps in the source (an invalid range), so the model makes it a precondition.
- SystemVersions.Parse: a non-integer token traps at the force unwrap, so `Parsable` is a precondition.
- FirmwareQuery.Do: saving firmware files without an output directory traps at the force unwrap of `outputDirectory`, so the model makes it a precondition.
- FirmwareQuery.Do: an untracked container image traps in `releaseDiskImage`, so tracking it is a precondition.
- FirmwareQuery.Cleanup: for the same trap, tracking the container image is a precondition.
- FirmwareDatabase.DumpStorage: the order `sorted()` produces is unspecified, because `<` is not a strict weak order. The order is a ghost output, and the dump proves only which sections appear, each once.
- FirmwareDatabase.DumpStorage: the `KeysParsable` precondition stands for the same force-unwrap trap on keys.
- FirmwareRecord.DumpRecord: `Dictionary` iteration order is arbitrary. The order is a ghost output that lists every entry once.
- Installers.Create: reading a version traps on a non-integer token, so every property list the host holds must satisfy `Readable`.
- FirmwareDatabase.Database.Markdown: writing the text to a file is left out; the method returns the text.
- Text.Filter: its contract states which names are kept, not that their order is kept.

## Findings

| source | as written | input that shows it | evidently intended | confidence | as-written member | corrected member |
|---|---|---|---|---|---|---|
| ThunderboltFirmwareQuery/SystemVersion.swift:157-170 | `<` returns true on a shorter build or a smaller build string without first checking that the left rank is not larger | 10.15.0 (19A1) and 10.12.5 (16F73): each is less than the other; also 10.12.6 (16G29) and 10.12.6 (16G1036) | rank first, then build length, then build text: a strict total order, so `sorted()` is well defined | high; not executed | SystemVersions.LessNotAsymmetric | SystemVersions.PrecedesStrictOrder |
| ThunderboltFirmwareQuery/StringWriter.swift:55-60 | the column adds the padding and the whole text, then subtracts only the newline's offset within the text, so the padding is never removed | `print("a\n")` at indentation 1 on a fresh line records column 4 for an empty last line | the column is the length of the text after the last newline | high; not executed | Writers.ColumnDrift | Writers.IntendedColumnTracks |

The corrected order is not used to sort the database sections: the model leaves that order open. The corrected column is not used by `Print`, which models the code as written. Every renderer prints only through `println`, which resets the column to 0, so the drift never reaches their output.

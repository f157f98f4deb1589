/** A firmware query on one installer: the reference counter that keeps a
    shared installer disk image attached while queries on it are pending,
    the creation of queries from an installer disk image, the query itself
    (mount `InstallESD.dmg`, find the board folders of the firmware updater,
    read each board's `Config.plist`, clean up) and the result's renderer. */
module FirmwareQuery {
  import opened Wrappers
  import opened Text
  import opened SystemVersions
  import opened Writers
  import opened FirmwareConfig
  import opened FirmwareRecord
  import opened FirmwareDatabase
  import opened Host
  import opened Installers

  /** `Option`: whether to save the firmware files, and where. */
  datatype QueryOption = QueryOption(shouldSaveFirmwareFiles: bool, outputDirectory: Option<Path>)

  /** A query: the installer and, when it came from an installer disk image,
      that image. */
  datatype Query = Query(installer: Installer, diskImage: Option<Path>)

  /** `Result`: the installer's version and the records found. */
  datatype QueryResult = QueryResult(version: SystemVersion, records: Record)

  // ---------------------------------------------------------------------------
  // The disk image reference counter

  /** `diskImageRefs`: for each tracked disk image, its mount point and how
      many queries depend on it. */
  type Refs = map<Path, (Path, int)>

  /** Every tracked image has at least one dependent query. */
  predicate Counted(refs: Refs)
  {
    forall file :: file in refs ==> refs[file].1 >= 1
  }

  /** The table after `retainDiskImage`: a tracked image gains one reference
      and keeps the mount point recorded first; an untracked one is tracked
      with one reference at `mountPoint`. */
  function Retained(refs: Refs, file: Path, mountPoint: Path): (r: Refs)
    ensures r.Keys == refs.Keys + {file}
    ensures file in refs ==> r[file] == (refs[file].0, refs[file].1 + 1)
    ensures file !in refs ==> r[file] == (mountPoint, 1)
    ensures forall other :: other in refs && other != file ==> r[other] == refs[other]
  {
    if file in refs then refs[file := (refs[file].0, refs[file].1 + 1)] else refs[file := (mountPoint, 1)]
  }

  /** The table after `releaseDiskImage`: above one reference the count drops
      by one; at one a detach of the image is issued and, as written, the
      entry is left as it was. */
  function Released(refs: Refs, file: Path): (r: Refs)
    requires file in refs
    ensures r.Keys == refs.Keys
    ensures refs[file].1 == 1 ==> r == refs
    ensures refs[file].1 != 1 ==> r[file] == (refs[file].0, refs[file].1 - 1)
    ensures forall other :: other in refs && other != file ==> r[other] == refs[other]
  {
    if refs[file].1 == 1 then refs else refs[file := (refs[file].0, refs[file].1 - 1)]
  }

  /** The detach `releaseDiskImage` issues, with outcome `ok`: the recorded
      mount point's, at one reference. */
  function ReleaseEvents(refs: Refs, file: Path, ok: bool): seq<Event>
    requires file in refs
  {
    if refs[file].1 == 1 then [Detached(refs[file].0, ok)] else []
  }

  /** The detach releasing the container image of a query performs, if it
      has one. */
  function ReleaseEventsOf(refs: Refs, diskImage: Option<Path>, ok: bool): seq<Event>
    requires diskImage.Some? ==> diskImage.value in refs
  {
    if diskImage.Some? then ReleaseEvents(refs, diskImage.value, ok) else []
  }

  /** The table after releasing the container image of a query, if it has
      one. */
  function ReleasedOf(refs: Refs, diskImage: Option<Path>): Refs
    requires diskImage.Some? ==> diskImage.value in refs
  {
    if diskImage.Some? then Released(refs, diskImage.value) else refs
  }

  /** Retaining and releasing keep every count at least one. */
  lemma CountedKept(refs: Refs, file: Path, mountPoint: Path)
    requires Counted(refs)
    ensures Counted(Retained(refs, file, mountPoint))
    ensures file in refs ==> Counted(Released(refs, file))
  {
  }

  /** Releasing an image that was already tracked undoes a retain. */
  lemma ReleaseUndoesRetain(refs: Refs, file: Path, mountPoint: Path)
    requires Counted(refs) && file in refs
    ensures Released(Retained(refs, file, mountPoint), file) == refs
  {
    var r := Retained(refs, file, mountPoint);
    assert r[file].1 != 1;
    assert refs[file := r[file := (r[file].0, r[file].1 - 1)][file]] == refs;
  }

  /** As written, once an image has been retained once, every release
      issues a detach of its mount point again and the entry stays: two
      releases issue two detaches of the same volume, which no longer
      balances. */
  lemma ReleaseTwiceDetachesTwice(refs: Refs, file: Path, mountPoint: Path, image: Path)
    requires file !in refs
    ensures Released(Retained(refs, file, mountPoint), file) == Retained(refs, file, mountPoint)
    ensures ReleaseEvents(Retained(refs, file, mountPoint), file, true) == [Detached(mountPoint, true)]
    ensures Replay([Attached(image, mountPoint, true)] + [Detached(mountPoint, true)] + [Detached(mountPoint, true)], []) == None
  {
    var events := [Attached(image, mountPoint, true), Detached(mountPoint, true), Detached(mountPoint, true)];
    assert [Attached(image, mountPoint, true)] + [Detached(mountPoint, true)] + [Detached(mountPoint, true)] == events;
    assert [] + [mountPoint] == [mountPoint];
    assert Replay(events, []) == Replay(events[1..], [mountPoint]);
    assert events[1..] == [Detached(mountPoint, true), Detached(mountPoint, true)];
    assert [mountPoint][..0] == [];
    assert Replay(events[1..], [mountPoint]) == Replay([Detached(mountPoint, true)], []);
  }

  /** The table after `n` retains of the same image at the same mount point. */
  function RetainedTimes(refs: Refs, file: Path, mountPoint: Path, n: nat): Refs
  {
    if n == 0 then refs
    else if file in refs then refs[file := (refs[file].0, refs[file].1 + n)]
    else refs[file := (mountPoint, n)]
  }

  /** One more retain adds one to the closed form. */
  lemma RetainedTimesStep(refs: Refs, file: Path, mountPoint: Path, n: nat, m: nat, before: Refs, after: Refs)
    requires before == RetainedTimes(refs, file, mountPoint, n)
    requires after == Retained(before, file, mountPoint) && m == n + 1
    ensures after == RetainedTimes(refs, file, mountPoint, m)
  {
  }

  /** The static `diskImageRefs` table and its two operations. */
  class ImageReferences {
    var refs: Refs

    constructor ()
      ensures refs == map[]
    {
      refs := map[];
    }

    /** `retainDiskImage(fileURL:mountPoint:)`. */
    method Retain(file: Path, mountPoint: Path)
      modifies this
      ensures refs == Retained(old(refs), file, mountPoint)
    {
      if file in refs {
        refs := refs[file := (refs[file].0, refs[file].1 + 1)];
      } else {
        refs := refs[file := (mountPoint, 1)];
      }
    }

    /** `releaseDiskImage(fileURL:)`: an untracked image is a fatal error.
        `detached` is the outcome of the detach, when one is issued. */
    method Release(file: Path, host: Host) returns (ghost detached: bool)
      requires file in refs
      modifies this, host
      ensures refs == Released(old(refs), file)
      ensures host.log == old(host.log) + ReleaseEvents(old(refs), file, detached)
      ensures host.issued == old(host.issued)
    {
      var counter := refs[file];
      detached := true;
      if counter.1 == 1 {
        var ok := host.Detach(counter.0);
        detached := ok;
      } else {
        refs := refs[file := (counter.0, counter.1 - 1)];
      }
    }
  }

  // ---------------------------------------------------------------------------
  // Creating queries

  /** The names `createQueries` takes for installers: an `.app` whose name
      starts with "Install". */
  predicate IsInstallerApp(name: string)
  {
    EndsWith(name, ".app") && StartsWith(name, "Install")
  }

  /** The installer apps of a listing of the volume at `mountPoint`. */
  function InstallerApps(mountPoint: Path, names: seq<string>): set<Path>
  {
    set name | name in names && IsInstallerApp(name) :: Child(mountPoint, name)
  }

  /** `createQuery(onInstaller:diskImage:)`: a query with the given disk
      image exactly when `init?(app:)` finds the installer's version, as
      its visits show; a detach is issued for every image attached
      meanwhile. */
  method CreateQuery(url: Path, diskImage: Option<Path>, host: Host)
    returns (query: Option<Query>, ghost events: seq<Event>, ghost first: seq<Event>, ghost second: seq<Event>)
    requires Readable(host)
    modifies host
    ensures host.log == old(host.log) + events
    ensures events == first + second
    ensures CreateVisits(host, url, old(host.issued), first, second)
    ensures host.issued == old(host.issued) + Creations(events)
    ensures Balanced(events)
    ensures query == match VisitedVersion(host, first, second)
                     case Some(v) => Some(Query(Installer(v, url), diskImage))
                     case None => None
  {
    var installer;
    ghost var before := host.log;
    installer, first, second := Create(url, host);
    Regroup(before, first, second);
    CreateBalanced(host, url, old(host.issued), first, second);
    events := first + second;
    CreationsAppend(first, second);
    query := if installer.Some? then Some(Query(installer.value, diskImage)) else None;
  }

  /** The query `createQuery` makes of the app at `app` on the image
      `image` when its installer yields `version`: none without a version. */
  function QueryOf(image: Path, app: Path, version: Option<SystemVersion>): seq<Query>
  {
    match version
    case Some(v) => [Query(Installer(v, app), Some(image))]
    case None => []
  }

  /** The queries the `compactMap` of `createQueries` makes of the installer
      apps `apps` on the image `image` mounted at `mountPoint`, given the
      version each app's installer yields: one per app with a version, in
      the apps' order. */
  function MadeQueries(image: Path, mountPoint: Path, apps: seq<string>, versions: seq<Option<SystemVersion>>): seq<Query>
    requires |versions| == |apps|
  {
    if |apps| == 0 then []
    else
      var n := |apps| - 1;
      MadeQueries(image, mountPoint, apps[..n], versions[..n]) + QueryOf(image, Child(mountPoint, apps[n]), versions[n])
  }

  /** One more app adds its query, if any, at the end. */
  lemma MadeQueriesSnoc(image: Path, mountPoint: Path, apps: seq<string>, versions: seq<Option<SystemVersion>>,
                        app: string, version: Option<SystemVersion>)
    requires |versions| == |apps|
    ensures MadeQueries(image, mountPoint, apps + [app], versions + [version])
            == MadeQueries(image, mountPoint, apps, versions) + QueryOf(image, Child(mountPoint, app), version)
  {
    assert (apps + [app])[..|apps|] == apps;
    assert (versions + [version])[..|apps|] == versions;
  }

  /** The versions the installers of the apps yield, read from each app's
      visits `firsts[i]` and `seconds[i]`. */
  function VisitedVersions(host: Host, firsts: seq<seq<Event>>, seconds: seq<seq<Event>>): (r: seq<Option<SystemVersion>>)
    requires Readable(host)
    requires |firsts| == |seconds|
    ensures |r| == |firsts|
    ensures forall i :: 0 <= i < |firsts| ==> r[i] == VisitedVersion(host, firsts[i], seconds[i])
  {
    seq(|firsts|, i requires 0 <= i < |firsts| => VisitedVersion(host, firsts[i], seconds[i]))
  }

  /** One more app adds its version at the end. */
  lemma VisitedVersionsSnoc(host: Host, firsts: seq<seq<Event>>, seconds: seq<seq<Event>>, first: seq<Event>, second: seq<Event>)
    requires Readable(host)
    requires |firsts| == |seconds|
    ensures VisitedVersions(host, firsts + [first], seconds + [second])
            == VisitedVersions(host, firsts, seconds) + [VisitedVersion(host, first, second)]
  {
  }

  /** The log of visiting the apps in turn: each app's `BaseSystem.dmg`
      visit, then its `InstallESD.dmg` visit. */
  function VisitsLog(firsts: seq<seq<Event>>, seconds: seq<seq<Event>>): seq<Event>
    requires |firsts| == |seconds|
  {
    if |firsts| == 0 then []
    else
      var n := |firsts| - 1;
      VisitsLog(firsts[..n], seconds[..n]) + firsts[n] + seconds[n]
  }

  /** One more app adds its visits at the end of the log. */
  lemma VisitsLogSnoc(firsts: seq<seq<Event>>, seconds: seq<seq<Event>>, first: seq<Event>, second: seq<Event>)
    requires |firsts| == |seconds|
    ensures VisitsLog(firsts + [first], seconds + [second]) == VisitsLog(firsts, seconds) + (first + second)
  {
    assert (firsts + [first])[..|firsts|] == firsts;
    assert (seconds + [second])[..|firsts|] == seconds;
  }

  /** One more app of `apps` adds the query its installer's version makes. */
  lemma MadeQueriesStep(host: Host, image: Path, mountPoint: Path, apps: seq<string>, i: nat,
                        firsts: seq<seq<Event>>, seconds: seq<seq<Event>>, first: seq<Event>, second: seq<Event>,
                        queries: seq<Query>, made: seq<Query>)
    requires Readable(host)
    requires i < |apps| && |firsts| == i && |seconds| == i
    requires queries == MadeQueries(image, mountPoint, apps[..i], VisitedVersions(host, firsts, seconds))
    requires made == QueryOf(image, Child(mountPoint, apps[i]), VisitedVersion(host, first, second))
    ensures queries + made
            == MadeQueries(image, mountPoint, apps[..i + 1], VisitedVersions(host, firsts + [first], seconds + [second]))
  {
    PrefixStep(apps, i);
    VisitedVersionsSnoc(host, firsts, seconds, first, second);
    MadeQueriesSnoc(image, mountPoint, apps[..i], VisitedVersions(host, firsts, seconds), apps[i],
                    VisitedVersion(host, first, second));
  }

  /** A query is made exactly for an app whose installer yields a version:
      it names that app and carries that version and the image. */
  lemma {:induction false} MadeQueriesMembers(image: Path, mountPoint: Path, apps: seq<string>,
                                              versions: seq<Option<SystemVersion>>, q: Query)
    requires |versions| == |apps|
    ensures q in MadeQueries(image, mountPoint, apps, versions) <==>
            exists i :: 0 <= i < |apps| && q.installer.url == Child(mountPoint, apps[i]) && q.diskImage == Some(image)
                        && versions[i] == Some(q.installer.version)
  {
    if |apps| > 0 {
      var n := |apps| - 1;
      var init, vs := apps[..n], versions[..n];
      var last := QueryOf(image, Child(mountPoint, apps[n]), versions[n]);
      MadeQueriesMembers(image, mountPoint, init, vs, q);
      if q in MadeQueries(image, mountPoint, init, vs) {
        var i :| 0 <= i < |init| && q.installer.url == Child(mountPoint, init[i]) && q.diskImage == Some(image)
                 && vs[i] == Some(q.installer.version);
        assert init[i] == apps[i] && vs[i] == versions[i];
      } else if q in last {
        assert q.installer.url == Child(mountPoint, apps[n]) && versions[n] == Some(q.installer.version);
      }
      if exists i :: 0 <= i < |apps| && q.installer.url == Child(mountPoint, apps[i]) && q.diskImage == Some(image)
                     && versions[i] == Some(q.installer.version) {
        var i :| 0 <= i < |apps| && q.installer.url == Child(mountPoint, apps[i]) && q.diskImage == Some(image)
                 && versions[i] == Some(q.installer.version);
        if i < n {
          assert init[i] == apps[i] && vs[i] == versions[i];
        } else {
          assert last == [Query(Installer(q.installer.version, Child(mountPoint, apps[n])), Some(image))];
        }
      }
    }
  }

  /** Each app's visits `firsts[i]` and `seconds[i]` are those of
      `init?(app:)` on the app of that name on the volume at `mountPoint`,
      starting from the fresh path numbered `n` plus the directories the
      visits of the apps before it created. */
  predicate AllCreateVisits(host: Host, mountPoint: Path, apps: seq<string>, n: nat,
                            firsts: seq<seq<Event>>, seconds: seq<seq<Event>>)
    requires Readable(host)
    requires |firsts| == |apps| && |seconds| == |apps|
  {
    if |apps| == 0 then true
    else
      var k := |apps| - 1;
      AllCreateVisits(host, mountPoint, apps[..k], n, firsts[..k], seconds[..k])
      && CreateVisits(host, Child(mountPoint, apps[k]), n + Creations(VisitsLog(firsts[..k], seconds[..k])), firsts[k], seconds[k])
  }

  /** Under `AllCreateVisits`, each app's visits are those of
      `init?(app:)`. */
  lemma {:induction false} AllCreateVisitsAt(host: Host, mountPoint: Path, apps: seq<string>, n: nat,
                                             firsts: seq<seq<Event>>, seconds: seq<seq<Event>>, i: nat)
    requires Readable(host)
    requires |firsts| == |apps| && |seconds| == |apps|
    requires AllCreateVisits(host, mountPoint, apps, n, firsts, seconds)
    requires i < |apps|
    ensures CreateVisits(host, Child(mountPoint, apps[i]), n + Creations(VisitsLog(firsts[..i], seconds[..i])), firsts[i], seconds[i])
  {
    var k := |apps| - 1;
    var start := n + Creations(VisitsLog(firsts[..i], seconds[..i]));
    if i < k {
      AllCreateVisitsAt(host, mountPoint, apps[..k], n, firsts[..k], seconds[..k], i);
      assert apps[..k][i] == apps[i] && firsts[..k][i] == firsts[i] && seconds[..k][i] == seconds[i];
      assert firsts[..k][..i] == firsts[..i] && seconds[..k][..i] == seconds[..i];
      assert n + Creations(VisitsLog(firsts[..k][..i], seconds[..k][..i])) == start;
      assert CreateVisits(host, Child(mountPoint, apps[..k][i]), start, firsts[..k][i], seconds[..k][i]);
    } else {
      assert i == k && firsts[..i] == firsts[..k] && seconds[..i] == seconds[..k];
    }
  }

  /** Conversely, when each app's visits are those of `init?(app:)`,
      `AllCreateVisits` holds. */
  lemma AllCreateVisitsOfEach(host: Host, mountPoint: Path, apps: seq<string>, n: nat,
                              firsts: seq<seq<Event>>, seconds: seq<seq<Event>>)
    requires Readable(host)
    requires |firsts| == |apps| && |seconds| == |apps|
    requires forall i :: 0 <= i < |apps| ==>
               CreateVisits(host, Child(mountPoint, apps[i]), n + Creations(VisitsLog(firsts[..i], seconds[..i])), firsts[i], seconds[i])
    ensures AllCreateVisits(host, mountPoint, apps, n, firsts, seconds)
  {
    var j := 0;
    while j < |apps|
      invariant j <= |apps|
      invariant AllCreateVisits(host, mountPoint, apps[..j], n, firsts[..j], seconds[..j])
    {
      PrefixStep(firsts, j);
      PrefixStep(seconds, j);
      AllCreateVisitsSnoc(host, mountPoint, apps, n, j, firsts[..j], seconds[..j],
                          n + Creations(VisitsLog(firsts[..j], seconds[..j])), firsts[j], seconds[j]);
      j := j + 1;
    }
    assert apps[..j] == apps && firsts[..j] == firsts && seconds[..j] == seconds;
  }

  /** One more app's visits keep every app's visits those of `init?(app:)`. */
  lemma AllCreateVisitsSnoc(host: Host, mountPoint: Path, apps: seq<string>, n: nat, i: nat,
                            firsts: seq<seq<Event>>, seconds: seq<seq<Event>>,
                            start: nat, first: seq<Event>, second: seq<Event>)
    requires Readable(host)
    requires i < |apps| && |firsts| == i && |seconds| == i
    requires AllCreateVisits(host, mountPoint, apps[..i], n, firsts, seconds)
    requires start == n + Creations(VisitsLog(firsts, seconds))
    requires CreateVisits(host, Child(mountPoint, apps[i]), start, first, second)
    ensures AllCreateVisits(host, mountPoint, apps[..i + 1], n, firsts + [first], seconds + [second])
  {
    assert apps[..i + 1][..i] == apps[..i] && apps[..i + 1][i] == apps[i];
    assert (firsts + [first])[..i] == firsts && (seconds + [second])[..i] == seconds;
  }

  /** One more app's balanced visits extend the balanced log of the visits
      so far. */
  lemma VisitsLogStep(baseLog: seq<Event>, firsts: seq<seq<Event>>, seconds: seq<seq<Event>>, first: seq<Event>, second: seq<Event>)
    requires |firsts| == |seconds|
    requires Balanced(VisitsLog(firsts, seconds)) && Balanced(first + second)
    ensures baseLog + VisitsLog(firsts, seconds) + (first + second) == baseLog + VisitsLog(firsts + [first], seconds + [second])
    ensures Balanced(VisitsLog(firsts + [first], seconds + [second]))
    ensures Creations(VisitsLog(firsts + [first], seconds + [second])) == Creations(VisitsLog(firsts, seconds)) + Creations(first + second)
  {
    CreationsAppend(VisitsLog(firsts, seconds), first + second);
    BalancedAfter(VisitsLog(firsts, seconds), first + second, []);
    Regroup(baseLog, VisitsLog(firsts, seconds), first + second);
    VisitsLogSnoc(firsts, seconds, first, second);
  }

  /** The closure of the `compactMap` of `createQueries`, on the i-th app
      of `apps`: `createQuery` on the installer app on the image `url`
      mounted at `mountPoint`, and the image retained once when a query is
      made. Given the queries made of the apps before it, the queries made
      so far are those `MadeQueries` gives for the apps up to this one.
      A detach is issued for every image the query attaches. */
  method QueryInstaller(url: Path, mountPoint: Path, apps: seq<string>, i: nat, host: Host, references: ImageReferences,
                        ghost baseLog: seq<Event>, ghost base: Refs, ghost n: nat,
                        ghost queries: seq<Query>, ghost firsts: seq<seq<Event>>, ghost seconds: seq<seq<Event>>)
    returns (made: seq<Query>, ghost first: seq<Event>, ghost second: seq<Event>)
    requires Readable(host)
    requires i < |apps| && |firsts| == i && |seconds| == i
    requires host.log == baseLog + VisitsLog(firsts, seconds)
    requires host.issued == n + Creations(VisitsLog(firsts, seconds))
    requires AllCreateVisits(host, mountPoint, apps[..i], n, firsts, seconds)
    requires Balanced(VisitsLog(firsts, seconds))
    requires queries == MadeQueries(url, mountPoint, apps[..i], VisitedVersions(host, firsts, seconds))
    requires references.refs == RetainedTimes(base, url, mountPoint, |queries|)
    modifies host, references
    ensures CreateVisits(host, Child(mountPoint, apps[i]), old(host.issued), first, second)
    ensures made == QueryOf(url, Child(mountPoint, apps[i]), VisitedVersion(host, first, second))
    ensures host.log == baseLog + VisitsLog(firsts + [first], seconds + [second])
    ensures host.issued == n + Creations(VisitsLog(firsts + [first], seconds + [second]))
    ensures AllCreateVisits(host, mountPoint, apps[..i + 1], n, firsts + [first], seconds + [second])
    ensures Balanced(VisitsLog(firsts + [first], seconds + [second]))
    ensures queries + made == MadeQueries(url, mountPoint, apps[..i + 1],
                                          VisitedVersions(host, firsts + [first], seconds + [second]))
    ensures references.refs == RetainedTimes(base, url, mountPoint, |queries + made|)
  {
    var query;
    ghost var events;
    ghost var start := host.issued;
    query, events, first, second := CreateQuery(Child(mountPoint, apps[i]), Some(url), host);
    made := [];
    if query.Some? {
      ghost var before := references.refs;
      references.Retain(url, mountPoint);
      made := [query.value];
      RetainedTimesStep(base, url, mountPoint, |queries|, |queries + made|, before, references.refs);
    } else {
      assert queries + made == queries;
    }
    MadeQueriesStep(host, url, mountPoint, apps, i, firsts, seconds, first, second, queries, made);
    AllCreateVisitsSnoc(host, mountPoint, apps, n, i, firsts, seconds, start, first, second);
    VisitsLogStep(baseLog, firsts, seconds, first, second);
  }

  /** The `compactMap` of `createQueries`: `createQuery` on each installer
      app of `apps` on the image `url` mounted at `mountPoint`, in order;
      the log is the apps' visits in turn, and the queries are those made,
      one for each app whose installer yields a version, retaining the
      image once per query made. A detach is issued for every image a
      query attaches. */
  method QueryInstallers(url: Path, mountPoint: Path, apps: seq<string>, host: Host, references: ImageReferences)
    returns (queries: seq<Query>, ghost firsts: seq<seq<Event>>, ghost seconds: seq<seq<Event>>)
    requires Readable(host)
    modifies host, references
    ensures |firsts| == |apps| && |seconds| == |apps|
    ensures host.log == old(host.log) + VisitsLog(firsts, seconds)
    ensures host.issued == old(host.issued) + Creations(VisitsLog(firsts, seconds))
    ensures AllCreateVisits(host, mountPoint, apps, old(host.issued), firsts, seconds)
    ensures Balanced(VisitsLog(firsts, seconds))
    ensures queries == MadeQueries(url, mountPoint, apps, VisitedVersions(host, firsts, seconds))
    ensures references.refs == RetainedTimes(old(references.refs), url, mountPoint, |queries|)
  {
    queries, firsts, seconds := [], [], [];
    assert old(host.log) + [] == old(host.log);
    for i := 0 to |apps|
      invariant |firsts| == i && |seconds| == i
      invariant host.log == old(host.log) + VisitsLog(firsts, seconds)
      invariant host.issued == old(host.issued) + Creations(VisitsLog(firsts, seconds))
      invariant AllCreateVisits(host, mountPoint, apps[..i], old(host.issued), firsts, seconds)
      invariant Balanced(VisitsLog(firsts, seconds))
      invariant queries == MadeQueries(url, mountPoint, apps[..i], VisitedVersions(host, firsts, seconds))
      invariant references.refs == RetainedTimes(old(references.refs), url, mountPoint, |queries|)
    {
      var made;
      ghost var first, second;
      made, first, second :=
        QueryInstaller(url, mountPoint, apps, i, host, references, old(host.log), old(references.refs), old(host.issued),
                       queries, firsts, seconds);
      firsts, seconds, queries := firsts + [first], seconds + [second], queries + made;
    }
    assert apps[..|apps|] == apps;
  }

  /** Every query made of the installer apps of a listing depends on the
      image and names one of those apps. */
  lemma MadeQueriesApps(image: Path, mountPoint: Path, names: seq<string>, versions: seq<Option<SystemVersion>>)
    requires |versions| == |Filter(names, IsInstallerApp)|
    ensures forall q :: q in MadeQueries(image, mountPoint, Filter(names, IsInstallerApp), versions) ==>
              q.diskImage == Some(image) && q.installer.url in InstallerApps(mountPoint, names)
  {
    var apps := Filter(names, IsInstallerApp);
    forall q | q in MadeQueries(image, mountPoint, apps, versions)
      ensures q.diskImage == Some(image) && q.installer.url in InstallerApps(mountPoint, names)
    {
      MadeQueriesMembers(image, mountPoint, apps, versions, q);
      var i :| 0 <= i < |apps| && q.installer.url == Child(mountPoint, apps[i]) && q.diskImage == Some(image)
               && versions[i] == Some(q.installer.version);
      assert apps[i] in apps;
    }
  }

  /** The image attached at `mountPoint`, followed by balanced visits,
      is the only mount left awaiting a detach. */
  lemma ImageStaysAttached(image: Path, mountPoint: Path, visits: seq<Event>)
    requires Balanced(visits)
    ensures var events := [Created(mountPoint, true), Attached(image, mountPoint, true)] + visits;
            events[..2] == [Created(mountPoint, true), Attached(image, mountPoint, true)]
            && events[2..] == visits && Replay(events, []) == Some([mountPoint])
  {
    var opening := [Created(mountPoint, true), Attached(image, mountPoint, true)];
    assert Replay(opening, []) == Some([mountPoint]) by {
      assert opening[1..][1..] == [];
      assert [] + [mountPoint] == [mountPoint];
      assert Replay(opening, []) == Replay(opening[1..], []);
      assert Replay(opening[1..], []) == Replay(opening[1..][1..], [mountPoint]);
    }
    BalancedAfter(opening, visits, [mountPoint]);
  }

  /** What listing the mount point of an attached image yields: no query and
      no event when the listing fails; otherwise the visits of the
      installer apps on it, in order, and the queries made of them, each
      depending on the image and naming one of those apps. */
  ghost predicate ListedQueries(host: Host, url: Path, mountPoint: Path, n: nat, visits: seq<Event>, queries: seq<Query>,
                                firsts: seq<seq<Event>>, seconds: seq<seq<Event>>)
    requires Readable(host)
  {
    && (host.Listing(mountPoint).None? ==> visits == [] && queries == [])
    && (host.Listing(mountPoint).Some? ==>
          var apps := Filter(host.Listing(mountPoint).value, IsInstallerApp);
          && |firsts| == |apps| && |seconds| == |apps|
          && visits == VisitsLog(firsts, seconds)
          && AllCreateVisits(host, mountPoint, apps, n, firsts, seconds)
          && queries == MadeQueries(url, mountPoint, apps, VisitedVersions(host, firsts, seconds)))
    && (forall q :: q in queries ==>
          q.diskImage == Some(url) && q.installer.url in InstallerApps(mountPoint, host.Listing(mountPoint).value))
  }

  /** The part of `createQueries(onInstallerDiskImage:)` after the image is
      attached at `mountPoint`: list the mount point and query each
      installer app on it, as `ListedQueries` states. */
  method QueryListing(url: Path, mountPoint: Path, host: Host, references: ImageReferences)
    returns (queries: seq<Query>, ghost visits: seq<Event>,
             ghost firsts: seq<seq<Event>>, ghost seconds: seq<seq<Event>>)
    requires Readable(host)
    modifies host, references
    ensures host.log == old(host.log) + visits
    ensures host.issued == old(host.issued) + Creations(visits)
    ensures Balanced(visits)
    ensures references.refs == RetainedTimes(old(references.refs), url, mountPoint, |queries|)
    ensures ListedQueries(host, url, mountPoint, old(host.issued), visits, queries, firsts, seconds)
  {
    var contents := host.Listing(mountPoint);
    if contents.None? {
      assert old(host.log) + [] == old(host.log);
      return [], [], [], [];
    }
    var apps := Filter(contents.value, IsInstallerApp);
    queries, firsts, seconds := QueryInstallers(url, mountPoint, apps, host, references);
    MadeQueriesApps(url, mountPoint, contents.value, VisitedVersions(host, firsts, seconds));
    visits := VisitsLog(firsts, seconds);
  }

  /** `createQueries(onInstallerDiskImage:)`: create a fresh mount point and
      attach the image there, making no query when either step fails;
      then list the mount point and query each installer app on it, as
      `ListedQueries` states. The image stays attached for the queries,
      which release it (as written it also stays attached when listing fails
      or no query is made); a detach is issued for every other image
      attached meanwhile. */
  method CreateQueries(url: Path, host: Host, references: ImageReferences)
    returns (queries: seq<Query>, ghost mountPoint: Path, ghost events: seq<Event>,
             ghost firsts: seq<seq<Event>>, ghost seconds: seq<seq<Event>>)
    requires Readable(host)
    modifies host, references
    ensures mountPoint == host.FreshPath(old(host.issued))
    ensures host.log == old(host.log) + events
    ensures host.issued == old(host.issued) + Creations(events)
    ensures references.refs == RetainedTimes(old(references.refs), url, mountPoint, |queries|)
    ensures |events| >= 1 && events[0] == Created(mountPoint, |events| >= 2)
    ensures |events| >= 2 ==> events[1].Attached? && events[1].image == url && events[1].at == mountPoint
    ensures |events| >= 2 && !events[1].ok ==> |events| == 2
    ensures |events| < 2 || !events[1].ok ==> queries == []
    ensures |events| >= 2 && events[1].ok ==>
              Replay(events, []) == Some([mountPoint])
              && ListedQueries(host, url, mountPoint, old(host.issued) + 1, events[2..], queries, firsts, seconds)
  {
    mountPoint := host.FreshPath(host.issued);
    var directory := host.TemporaryDirectory();
    if directory.None? {
      assert [Created(mountPoint, false)][1..] == [];
      return [], mountPoint, [Created(mountPoint, false)], [], [];
    }
    var at := directory.value;
    var attached := host.Attach(url, at);
    Regroup(old(host.log), [Created(at, true)], [Attached(url, at, attached)]);
    assert [Created(at, true)] + [Attached(url, at, attached)] == [Created(at, true), Attached(url, at, attached)];
    if !attached {
      assert [Created(at, true), Attached(url, at, false)][1..][1..] == [];
      return [], mountPoint, [Created(at, true), Attached(url, at, false)], [], [];
    }
    ghost var opening := [Created(at, true), Attached(url, at, true)];
    ghost var visits;
    queries, visits, firsts, seconds := QueryListing(url, at, host, references);
    ImageStaysAttached(url, at, visits);
    Regroup(old(host.log), opening, visits);
    assert opening[1..][1..] == [];
    CreationsAppend(opening, visits);
    events := opening + visits;
  }

  // ---------------------------------------------------------------------------
  // Performing a query

  /** The board folders of the firmware updater: names starting "Mac-". */
  predicate IsBoardName(name: string)
  {
    StartsWith(name, "Mac-")
  }

  /** The configuration of a board folder under `updaters`, when its
      `Config.plist` parses. */
  function BoardConfig(host: Host, updaters: Path, board: string): Option<Config>
  {
    LoadConfig(host.ReadPlist(Child(Child(updaters, board), "Config.plist")))
  }

  /** The records the gathering loop builds from the boards, in order: each
      board whose configuration parses is set to it. */
  function Gathered(host: Host, updaters: Path, boards: seq<string>): Record
  {
    if |boards| == 0 then map[]
    else
      var rest := Gathered(host, updaters, boards[..|boards| - 1]);
      var board := boards[|boards| - 1];
      match BoardConfig(host, updaters, board)
      case Some(config) => rest[board := config]
      case None => rest
  }

  /** The records hold exactly the listed boards whose configuration parsed,
      each with that configuration; boards that fail are skipped. */
  lemma {:induction false} GatheredBoards(host: Host, updaters: Path, boards: seq<string>)
    ensures forall b :: b in Gathered(host, updaters, boards) <==> b in boards && BoardConfig(host, updaters, b).Some?
    ensures forall b :: b in Gathered(host, updaters, boards) ==> Gathered(host, updaters, boards)[b] == BoardConfig(host, updaters, b).value
  {
    if |boards| > 0 {
      var n := |boards| - 1;
      GatheredBoards(host, updaters, boards[..n]);
      assert boards == boards[..n] + [boards[n]];
    }
  }

  /** The folders the loop of `do` copies when firmware files are saved:
      each board folder under `updaters` whose configuration parses, in
      order, to the folder of the same name under `directory`. */
  function CopyTargets(host: Host, updaters: Path, directory: Path, boards: seq<string>): seq<(Path, Path)>
  {
    if |boards| == 0 then []
    else
      var rest := CopyTargets(host, updaters, directory, boards[..|boards| - 1]);
      var board := boards[|boards| - 1];
      if BoardConfig(host, updaters, board).Some? then rest + [(Child(updaters, board), Child(directory, board))] else rest
  }

  /** A log of copies of exactly the folders `targets`, in order, each of
      which may have failed. */
  predicate IsCopyLog(copies: seq<Event>, targets: seq<(Path, Path)>)
  {
    |copies| == |targets|
    && forall i :: 0 <= i < |copies| ==> copies[i].Copied? && copies[i].from == targets[i].0 && copies[i].to == targets[i].1
  }

  /** One more copy extends the log. */
  lemma CopyLogSnoc(copies: seq<Event>, targets: seq<(Path, Path)>, copy: Event, target: (Path, Path))
    requires IsCopyLog(copies, targets)
    requires copy.Copied? && copy.from == target.0 && copy.to == target.1
    ensures IsCopyLog(copies + [copy], targets + [target])
  {
  }

  /** Copies attach and detach nothing. */
  lemma {:induction false} CopiesMountNothing(copies: seq<Event>, targets: seq<(Path, Path)>, open: seq<Path>)
    requires IsCopyLog(copies, targets)
    ensures Replay(copies, open) == Some(open)
  {
    if |copies| > 0 {
      assert IsCopyLog(copies[1..], targets[1..]) by {
        forall i | 0 <= i < |copies[1..]|
          ensures copies[1..][i].Copied? && copies[1..][i].from == targets[1..][i].0 && copies[1..][i].to == targets[1..][i].1
        {
          assert copies[1..][i] == copies[i + 1];
        }
      }
      CopiesMountNothing(copies[1..], targets[1..], open);
    }
  }

  /** The loop of `do` over the board folders: each board whose
      configuration parses is recorded and, when firmware files are saved,
      its folder copied into `outputDirectory`; a failed copy is ignored. */
  method GatherRecords(host: Host, updaters: Path, machines: seq<string>, save: bool, outputDirectory: Option<Path>)
    returns (records: Record, ghost copies: seq<Event>)
    requires save ==> outputDirectory.Some?
    modifies host
    ensures records == Gathered(host, updaters, machines)
    ensures host.log == old(host.log) + copies
    ensures host.issued == old(host.issued)
    ensures save ==> IsCopyLog(copies, CopyTargets(host, updaters, outputDirectory.value, machines))
    ensures !save ==> copies == []
  {
    records, copies := map[], [];
    for i := 0 to |machines|
      invariant records == Gathered(host, updaters, machines[..i])
      invariant host.log == old(host.log) + copies
      invariant host.issued == old(host.issued)
      invariant save ==> IsCopyLog(copies, CopyTargets(host, updaters, outputDirectory.value, machines[..i]))
      invariant !save ==> copies == []
    {
      var board := machines[i];
      var config := LoadConfig(host.ReadPlist(Child(Child(updaters, board), "Config.plist")));
      PrefixStep(machines, i);
      if config.Some? {
        records := records[board := config.value];
        if save {
          var copied := host.Copy(Child(updaters, board), Child(outputDirectory.value, board));
          CopyLogSnoc(copies, CopyTargets(host, updaters, outputDirectory.value, machines[..i]),
                      Copied(Child(updaters, board), Child(outputDirectory.value, board), copied),
                      (Child(updaters, board), Child(outputDirectory.value, board)));
          copies := copies + [Copied(Child(updaters, board), Child(outputDirectory.value, board), copied)];
        }
      }
    }
    PrefixWhole(machines);
  }

  /** `FirmwareUpdate.pkg` on the volume mounted at `mountPoint`. */
  function PackagePath(mountPoint: Path): Path
  {
    Child(mountPoint, "Packages/FirmwareUpdate.pkg")
  }

  /** The updater folder of the package expanded into `workingDirectory`. */
  function UpdatersPath(workingDirectory: Path): Path
  {
    Child(workingDirectory, "Scripts/Tools/USBCUpdater")
  }

  /** The middle of `do(option:)`: with `FirmwareUpdate.pkg` on the mounted
      volume, `pkgutil` expands it into a fresh working directory and the
      updater folder inside it is returned; `None` exactly when the package
      is missing or `pkgutil` fails. */
  method ExpandUpdatePackage(mountPoint: Path, host: Host) returns (updaters: Option<Path>, ghost events: seq<Event>)
    modifies host
    ensures host.log == old(host.log) + events
    ensures !host.Exists(PackagePath(mountPoint)) ==> events == [] && updaters.None?
    ensures host.Exists(PackagePath(mountPoint)) ==>
              events == [Expanded(PackagePath(mountPoint), host.FreshPath(old(host.issued)), updaters.Some?)]
    ensures updaters.Some? ==> updaters.value == UpdatersPath(host.FreshPath(old(host.issued)))
  {
    if !host.Exists(PackagePath(mountPoint)) {
      return None, [];
    }
    var workingDirectory := host.NewPath();
    var expanded := host.Expand(PackagePath(mountPoint), workingDirectory);
    events := [Expanded(PackagePath(mountPoint), workingDirectory, expanded)];
    updaters := if expanded then Some(UpdatersPath(workingDirectory)) else None;
  }

  /** The firmware part of `do(option:)` once `InstallESD.dmg` is mounted:
      expand the update package, list the updater folder and gather the
      records of its board folders, copying them when asked; `None` exactly
      when the package is missing, `pkgutil` fails or the listing fails.
      Nothing is attached or detached. */
  method ReadFirmware(mountPoint: Path, save: bool, outputDirectory: Option<Path>, host: Host)
    returns (records: Option<Record>, ghost events: seq<Event>, ghost copies: seq<Event>)
    requires save ==> outputDirectory.Some?
    modifies host
    ensures host.log == old(host.log) + events
    ensures var package, workingDirectory := PackagePath(mountPoint), host.FreshPath(old(host.issued));
            records.None? ==>
              || (!host.Exists(package) && events == [])
              || (host.Exists(package) && events == [Expanded(package, workingDirectory, false)])
              || (host.Exists(package) && host.Listing(UpdatersPath(workingDirectory)).None?
                  && events == [Expanded(package, workingDirectory, true)])
    ensures var package, workingDirectory := PackagePath(mountPoint), host.FreshPath(old(host.issued));
            var updaters := UpdatersPath(workingDirectory);
            records.Some? ==>
              host.Exists(package) && host.Listing(updaters).Some?
              && events == [Expanded(package, workingDirectory, true)] + copies
              && (save ==> IsCopyLog(copies, CopyTargets(host, updaters, outputDirectory.value,
                                                         Filter(host.Listing(updaters).value, IsBoardName))))
              && (!save ==> copies == [])
              && records.value == Gathered(host, updaters, Filter(host.Listing(updaters).value, IsBoardName))
  {
    var tools;
    tools, events := ExpandUpdatePackage(mountPoint, host);
    if tools.None? {
      return None, events, [];
    }
    var contents := host.Listing(tools.value);
    if contents.None? {
      return None, events, [];
    }
    var machines := Filter(contents.value, IsBoardName);
    var gathered;
    gathered, copies := GatherRecords(host, tools.value, machines, save, outputDirectory);
    Regroup(old(host.log), events, copies);
    events := events + copies;
    records := Some(gathered);
  }

  /** The cleanup at the end of `do(option:)`: detach `InstallESD.dmg`
      (`detached` is the outcome, which changes nothing that follows), then
      release the container disk image once, if there is one (`released` is
      the outcome of the detach that may issue). */
  method Cleanup(mountPoint: Path, diskImage: Option<Path>, host: Host, references: ImageReferences)
    returns (ghost events: seq<Event>, ghost detached: bool, ghost released: bool)
    requires diskImage.Some? ==> diskImage.value in references.refs
    modifies host, references
    ensures host.log == old(host.log) + events
    ensures events == [Detached(mountPoint, detached)] + ReleaseEventsOf(old(references.refs), diskImage, released)
    ensures references.refs == ReleasedOf(old(references.refs), diskImage)
  {
    var ok := host.Detach(mountPoint);
    detached := ok;
    events := [Detached(mountPoint, detached)];
    released := true;
    if diskImage.Some? {
      released := references.Release(diskImage.value, host);
      events := events + ReleaseEvents(old(references.refs), diskImage.value, released);
    }
  }

  /** The version folder `do` saves firmware files into. */
  function VersionDirectory(option: QueryOption, version: SystemVersion): Path
    requires option.outputDirectory.Some?
  {
    Child(option.outputDirectory.value, SystemVersions.VersionKey(version))
  }

  /** The log of `do` before its mount point: the version folder created,
      when firmware files are saved. */
  function Opening(option: QueryOption, version: SystemVersion): seq<Event>
    requires option.shouldSaveFirmwareFiles ==> option.outputDirectory.Some?
  {
    if option.shouldSaveFirmwareFiles then [Created(VersionDirectory(option, version), true)] else []
  }

  /** The start of `do(option:)`: create the version folder when firmware
      files are saved, then a fresh mount point, then attach
      `InstallESD.dmg` there; `None` exactly when one of these fails. */
  method MountForQuery(installer: Installer, option: QueryOption, host: Host)
    returns (mountPoint: Option<Path>, ghost events: seq<Event>)
    requires option.shouldSaveFirmwareFiles ==> option.outputDirectory.Some?
    modifies host
    ensures host.log == old(host.log) + events
    ensures var at, opening := host.FreshPath(old(host.issued)), Opening(option, installer.version);
            mountPoint.None? ==>
              || (option.shouldSaveFirmwareFiles && events == [Created(VersionDirectory(option, installer.version), false)])
              || events == opening + [Created(at, false)]
              || events == opening + [Created(at, true), Attached(EsdPath(installer.url), at, false)]
    ensures var at, opening := host.FreshPath(old(host.issued)), Opening(option, installer.version);
            mountPoint.Some? ==>
              mountPoint.value == at && host.issued == old(host.issued) + 1
              && events == opening + [Created(at, true), Attached(EsdPath(installer.url), at, true)]
  {
    events := [];
    if option.shouldSaveFirmwareFiles {
      var created := host.CreateDirectory(VersionDirectory(option, installer.version));
      if !created {
        return None, [Created(VersionDirectory(option, installer.version), false)];
      }
      events := [Created(VersionDirectory(option, installer.version), true)];
    }
    var directory := host.TemporaryDirectory();
    if directory.None? {
      return None, events + [Created(host.FreshPath(old(host.issued)), false)];
    }
    var mounted := MountInstallESD(installer, directory.value, host);
    events := events + [Created(directory.value, true), Attached(EsdPath(installer.url), directory.value, mounted)];
    mountPoint := if mounted then directory else None;
  }

  /** The ways `do(option:)` stops after the version folder, with the mount
      point `at` and the working directory `workingDirectory`: creating the
      mount point fails; the mount fails; the package is missing; `pkgutil`
      fails; the updater folder cannot be listed. */
  predicate FailedAfterOpening(host: Host, esd: Path, at: Path, workingDirectory: Path, tail: seq<Event>)
  {
    var mounted := [Created(at, true), Attached(esd, at, true)];
    || tail == [Created(at, false)]
    || tail == [Created(at, true), Attached(esd, at, false)]
    || (!host.Exists(PackagePath(at)) && tail == mounted)
    || (host.Exists(PackagePath(at)) && tail == mounted + [Expanded(PackagePath(at), workingDirectory, false)])
    || (host.Exists(PackagePath(at)) && host.Listing(UpdatersPath(workingDirectory)).None?
        && tail == mounted + [Expanded(PackagePath(at), workingDirectory, true)])
  }

  /** The logs with which `do(option:)`, started when `n` fresh names had
      been handed out, returns `None`: creating the version folder fails, or
      the folder is created (when saving) and a later step fails. */
  predicate FailedLog(host: Host, query: Query, option: QueryOption, n: nat, events: seq<Event>)
    requires option.shouldSaveFirmwareFiles ==> option.outputDirectory.Some?
  {
    var version := query.installer.version;
    var opening := Opening(option, version);
    || (option.shouldSaveFirmwareFiles && events == [Created(VersionDirectory(option, version), false)])
    || (|opening| <= |events| && events == opening + events[|opening|..]
        && FailedAfterOpening(host, EsdPath(query.installer.url), host.FreshPath(n), host.FreshPath(n + 1), events[|opening|..]))
  }

  /** A failure while mounting is one of `do`'s failures. */
  lemma MountFailedLog(host: Host, query: Query, option: QueryOption, n: nat, events: seq<Event>)
    requires option.shouldSaveFirmwareFiles ==> option.outputDirectory.Some?
    requires var at, opening := host.FreshPath(n), Opening(option, query.installer.version);
             || (option.shouldSaveFirmwareFiles && events == [Created(VersionDirectory(option, query.installer.version), false)])
             || events == opening + [Created(at, false)]
             || events == opening + [Created(at, true), Attached(EsdPath(query.installer.url), at, false)]
    ensures FailedLog(host, query, option, n, events)
  {
    var opening := Opening(option, query.installer.version);
    if !(option.shouldSaveFirmwareFiles && events == [Created(VersionDirectory(option, query.installer.version), false)]) {
      assert events[|opening|..] == [Created(host.FreshPath(n), false)]
             || events[|opening|..] == [Created(host.FreshPath(n), true), Attached(EsdPath(query.installer.url), host.FreshPath(n), false)];
    }
  }

  /** A failure after mounting is one of `do`'s failures. */
  lemma ReadFailedLog(host: Host, query: Query, option: QueryOption, n: nat, reading: seq<Event>)
    requires option.shouldSaveFirmwareFiles ==> option.outputDirectory.Some?
    requires var at, workingDirectory := host.FreshPath(n), host.FreshPath(n + 1);
             var package := PackagePath(at);
             || (!host.Exists(package) && reading == [])
             || (host.Exists(package) && reading == [Expanded(package, workingDirectory, false)])
             || (host.Exists(package) && host.Listing(UpdatersPath(workingDirectory)).None?
                 && reading == [Expanded(package, workingDirectory, true)])
    ensures var at, opening := host.FreshPath(n), Opening(option, query.installer.version);
            FailedLog(host, query, option, n, opening + [Created(at, true), Attached(EsdPath(query.installer.url), at, true)] + reading)
  {
    var at, opening := host.FreshPath(n), Opening(option, query.installer.version);
    var mounted := [Created(at, true), Attached(EsdPath(query.installer.url), at, true)];
    var events := opening + mounted + reading;
    assert events[|opening|..] == mounted + reading;
    assert events == opening + events[|opening|..];
    assert mounted + [] == mounted;
  }

  /** The log of `do(option:)` on success before the container image is
      released: the version folder (when saving), the mount point, the
      mount, `pkgutil`, the copies, the detach with outcome `detached`. */
  function SuccessLog(query: Query, option: QueryOption, mountPoint: Path, workingDirectory: Path,
                      copies: seq<Event>, detached: bool): seq<Event>
    requires option.shouldSaveFirmwareFiles ==> option.outputDirectory.Some?
  {
    Opening(option, query.installer.version)
    + [Created(mountPoint, true), Attached(EsdPath(query.installer.url), mountPoint, true),
       Expanded(PackagePath(mountPoint), workingDirectory, true)]
    + copies + [Detached(mountPoint, detached)]
  }

  /** `do`'s success log is its three phases in turn: the mount, the
      reading, the cleanup. */
  lemma SuccessLogPhases(query: Query, option: QueryOption, at: Path, workingDirectory: Path,
                         copies: seq<Event>, detached: bool, releases: seq<Event>)
    requires option.shouldSaveFirmwareFiles ==> option.outputDirectory.Some?
    ensures SuccessLog(query, option, at, workingDirectory, copies, detached) + releases
            == (Opening(option, query.installer.version) + [Created(at, true), Attached(EsdPath(query.installer.url), at, true)])
               + ([Expanded(PackagePath(at), workingDirectory, true)] + copies) + ([Detached(at, detached)] + releases)
  {
  }

  /** `do(option:)`. It returns `None` exactly when one of its steps fails
      (see `FailedLog`), changing no reference count; the early returns
      after the mount leave `InstallESD.dmg` attached. Otherwise the records
      are gathered (and copied when asked), a detach of the image issued
      (with outcome `detached`: one that fails leaves the image attached),
      the container disk image (if any) released once (with outcome
      `released` for the detach that may issue), and the result is the
      installer's version with the records. */
  method Do(query: Query, option: QueryOption, host: Host, references: ImageReferences)
    returns (result: Option<QueryResult>, ghost events: seq<Event>, ghost copies: seq<Event>,
             ghost detached: bool, ghost released: bool)
    requires option.shouldSaveFirmwareFiles ==> option.outputDirectory.Some?
    requires query.diskImage.Some? ==> query.diskImage.value in references.refs
    modifies host, references
    ensures host.log == old(host.log) + events
    ensures result.None? ==> references.refs == old(references.refs) && FailedLog(host, query, option, old(host.issued), events)
    ensures var at, workingDirectory := host.FreshPath(old(host.issued)), host.FreshPath(old(host.issued) + 1);
            var updaters := UpdatersPath(workingDirectory);
            result.Some? ==>
              host.Exists(PackagePath(at)) && host.Listing(updaters).Some?
              && events == SuccessLog(query, option, at, workingDirectory, copies, detached)
                           + ReleaseEventsOf(old(references.refs), query.diskImage, released)
              && (option.shouldSaveFirmwareFiles ==>
                    IsCopyLog(copies, CopyTargets(host, updaters, VersionDirectory(option, query.installer.version),
                                                  Filter(host.Listing(updaters).value, IsBoardName))))
              && (!option.shouldSaveFirmwareFiles ==> copies == [])
              && references.refs == ReleasedOf(old(references.refs), query.diskImage)
              && result.value == QueryResult(query.installer.version,
                                             Gathered(host, updaters, Filter(host.Listing(updaters).value, IsBoardName)))
  {
    var installer := query.installer;
    var outputDirectory := if option.outputDirectory.Some? then Some(VersionDirectory(option, installer.version)) else None;
    var mountPoint;
    mountPoint, events := MountForQuery(installer, option, host);
    if mountPoint.None? {
      MountFailedLog(host, query, option, old(host.issued), events);
      return None, events, [], false, false;
    }
    var records;
    ghost var reading;
    records, reading, copies := ReadFirmware(mountPoint.value, option.shouldSaveFirmwareFiles, outputDirectory, host);
    Regroup(old(host.log), events, reading);
    if records.None? {
      ReadFailedLog(host, query, option, old(host.issued), reading);
      return None, events + reading, [], false, false;
    }
    ghost var cleanup;
    cleanup, detached, released := Cleanup(mountPoint.value, query.diskImage, host, references);
    Regroup(old(host.log), events + reading, cleanup);
    SuccessLogPhases(query, option, mountPoint.value, host.FreshPath(old(host.issued) + 1), copies, detached,
                     ReleaseEventsOf(old(references.refs), query.diskImage, released));
    events := events + reading + cleanup;
    result := Some(QueryResult(installer.version, records.value));
  }

  /** The version folder created before the mount point mounts nothing. */
  lemma OpeningMountsNothing(option: QueryOption, version: SystemVersion, tail: seq<Event>)
    requires option.shouldSaveFirmwareFiles ==> option.outputDirectory.Some?
    ensures Replay(Opening(option, version) + tail, []) == Replay(tail, [])
    ensures forall e: Event :: e.Attached? ==> (e in Opening(option, version) + tail <==> e in tail)
  {
    var opening := Opening(option, version);
    assert Replay(opening, []) == Some([]) by {
      if option.shouldSaveFirmwareFiles {
        assert opening[1..] == [];
      }
    }
    ReplayAppend(opening, tail, []);
  }

  /** After a successful mount at `at`, a `pkgutil` step or none leaves the
      volume awaiting a detach. */
  lemma MountedLeaks(esd: Path, at: Path, rest: seq<Event>)
    requires rest == [] || (|rest| == 1 && rest[0].Expanded?)
    ensures Replay([Created(at, true), Attached(esd, at, true)] + rest, []) == Some([at])
  {
    var mounted := [Created(at, true), Attached(esd, at, true)];
    assert Replay(mounted, []) == Some([at]) by {
      assert mounted[1..][1..] == [];
      assert Replay(mounted, []) == Replay(mounted[1..], []);
      assert [] + [at] == [at];
      assert Replay(mounted[1..], []) == Replay(mounted[1..][1..], [at]);
    }
    ReplayAppend(mounted, rest, []);
    if rest != [] {
      assert rest[1..] == [];
    }
  }

  /** A failure after the version folder leaves the volume awaiting a
      detach exactly when it was mounted. */
  lemma FailedAfterOpeningLeaks(host: Host, esd: Path, at: Path, workingDirectory: Path, tail: seq<Event>)
    requires FailedAfterOpening(host, esd, at, workingDirectory, tail)
    ensures Replay(tail, []) == if Attached(esd, at, true) in tail then Some([at]) else Some([])
  {
    if tail == [Created(at, false)] {
      assert tail[1..] == [];
    } else if tail == [Created(at, true), Attached(esd, at, false)] {
      assert tail[1..][1..] == [];
      assert Replay(tail, []) == Replay(tail[1..], []);
      assert Replay(tail[1..], []) == Replay(tail[1..][1..], []);
      assert tail[0] != Attached(esd, at, true) && tail[1] != Attached(esd, at, true);
    } else {
      assert tail == [Created(at, true), Attached(esd, at, true)] + tail[2..];
      MountedLeaks(esd, at, tail[2..]);
      assert tail[1] == Attached(esd, at, true);
    }
  }

  /** Whenever `do` returns `None` after mounting `InstallESD.dmg`, no
      detach of the volume is issued; before the mount nothing is attached. */
  lemma FailedLogLeaks(host: Host, query: Query, option: QueryOption, n: nat, events: seq<Event>)
    requires option.shouldSaveFirmwareFiles ==> option.outputDirectory.Some?
    requires FailedLog(host, query, option, n, events)
    ensures var at := host.FreshPath(n);
            Replay(events, []) == if Attached(EsdPath(query.installer.url), at, true) in events then Some([at]) else Some([])
  {
    var version := query.installer.version;
    var opening := Opening(option, version);
    if option.shouldSaveFirmwareFiles && events == [Created(VersionDirectory(option, version), false)] {
      assert events[1..] == [];
    } else {
      var tail := events[|opening|..];
      OpeningMountsNothing(option, version, tail);
      FailedAfterOpeningLeaks(host, EsdPath(query.installer.url), host.FreshPath(n), host.FreshPath(n + 1), tail);
    }
  }

  /** A failure after the version folder leaves the volume attached
      exactly when it was mounted, and nothing else. */
  lemma FailedAfterOpeningHeld(host: Host, esd: Path, at: Path, workingDirectory: Path, tail: seq<Event>, held: set<Path>)
    requires FailedAfterOpening(host, esd, at, workingDirectory, tail)
    ensures Held(tail, held) == if Attached(esd, at, true) in tail then held + {at} else held
  {
    if tail == [Created(at, false)] {
      assert tail[1..] == [];
    } else if tail == [Created(at, true), Attached(esd, at, false)] {
      assert tail[1..][1..] == [];
      assert Held(tail, held) == Held(tail[1..], held);
      assert Held(tail[1..], held) == Held(tail[1..][1..], held);
      assert tail[0] != Attached(esd, at, true) && tail[1] != Attached(esd, at, true);
    } else {
      var mounted, rest := [Created(at, true), Attached(esd, at, true)], tail[2..];
      assert tail == mounted + rest;
      assert Held(mounted, held) == held + {at} by {
        assert mounted[1..][1..] == [];
        assert Held(mounted, held) == Held(mounted[1..], held);
        assert Held(mounted[1..], held) == Held(mounted[1..][1..], held + {at});
      }
      HeldUnmounting(rest, held + {at});
      HeldAppend(mounted, rest, held);
      assert tail[1] == Attached(esd, at, true);
    }
  }

  /** Whenever `do` returns `None`, the only volume it leaves attached is
      `InstallESD.dmg`'s, exactly when the attach succeeded. */
  lemma FailedLogHeld(host: Host, query: Query, option: QueryOption, n: nat, events: seq<Event>, held: set<Path>)
    requires option.shouldSaveFirmwareFiles ==> option.outputDirectory.Some?
    requires FailedLog(host, query, option, n, events)
    ensures var at := host.FreshPath(n);
            Held(events, held) == if Attached(EsdPath(query.installer.url), at, true) in events then held + {at} else held
  {
    var version := query.installer.version;
    var opening := Opening(option, version);
    if option.shouldSaveFirmwareFiles && events == [Created(VersionDirectory(option, version), false)] {
      assert events[1..] == [];
    } else {
      var tail := events[|opening|..];
      OpeningMountsNothing(option, version, tail);
      HeldUnmounting(opening, held);
      HeldAppend(opening, tail, held);
      FailedAfterOpeningHeld(host, EsdPath(query.installer.url), host.FreshPath(n), host.FreshPath(n + 1), tail, held);
    }
  }

  /** On success `do`'s own steps are balanced: a detach of its mount is
      issued once, after the copies, whatever releases follow. */
  lemma SuccessLogBalanced(query: Query, option: QueryOption, mountPoint: Path, workingDirectory: Path,
                           copies: seq<Event>, targets: seq<(Path, Path)>, detached: bool)
    requires option.shouldSaveFirmwareFiles ==> option.outputDirectory.Some?
    requires IsCopyLog(copies, targets)
    ensures Balanced(SuccessLog(query, option, mountPoint, workingDirectory, copies, detached))
  {
    var opening := Opening(option, query.installer.version);
    var steps := [Created(mountPoint, true), Attached(EsdPath(query.installer.url), mountPoint, true),
                  Expanded(PackagePath(mountPoint), workingDirectory, true)];
    var closing := [Detached(mountPoint, detached)];
    assert Replay(opening, []) == Some([]) by {
      if option.shouldSaveFirmwareFiles {
        assert opening[1..] == [];
      }
    }
    assert Replay(steps, []) == Some([mountPoint]) by {
      assert steps[1..][1..][1..] == [];
      assert [] + [mountPoint] == [mountPoint];
      assert Replay(steps, []) == Replay(steps[1..], []);
      assert Replay(steps[1..], []) == Replay(steps[1..][1..], [mountPoint]);
      assert Replay(steps[1..][1..], [mountPoint]) == Replay(steps[1..][1..][1..], [mountPoint]);
    }
    CopiesMountNothing(copies, targets, [mountPoint]);
    assert Replay(closing, [mountPoint]) == Some([]) by {
      assert closing[1..] == [];
      assert [mountPoint][..0] == [];
    }
    ReplayAppend(opening, steps, []);
    ReplayAppend(opening + steps, copies, []);
    ReplayAppend(opening + steps + copies, closing, []);
  }

  /** On success `do`'s own steps leave its mount attached exactly when the
      detach fails, and change nothing else that is attached. */
  lemma SuccessLogHeld(query: Query, option: QueryOption, mountPoint: Path, workingDirectory: Path,
                       copies: seq<Event>, targets: seq<(Path, Path)>, detached: bool, held: set<Path>)
    requires option.shouldSaveFirmwareFiles ==> option.outputDirectory.Some?
    requires IsCopyLog(copies, targets)
    ensures Held(SuccessLog(query, option, mountPoint, workingDirectory, copies, detached), held)
            == if detached then held - {mountPoint} else held + {mountPoint}
  {
    var opening := Opening(option, query.installer.version);
    var steps := [Created(mountPoint, true), Attached(EsdPath(query.installer.url), mountPoint, true),
                  Expanded(PackagePath(mountPoint), workingDirectory, true)];
    var closing := [Detached(mountPoint, detached)];
    var attached := held + {mountPoint};
    HeldUnmounting(opening, held);
    assert Held(steps, held) == attached by {
      assert steps[1..][1..][1..] == [];
      assert Held(steps, held) == Held(steps[1..], held);
      assert Held(steps[1..], held) == Held(steps[1..][1..], attached);
      assert Held(steps[1..][1..], attached) == Held(steps[1..][1..][1..], attached);
    }
    HeldUnmounting(copies, attached);
    assert Held(closing, attached) == if detached then held - {mountPoint} else attached by {
      assert closing[1..] == [];
    }
    HeldAppend(opening, steps, held);
    HeldAppend(opening + steps, copies, held);
    HeldAppend(opening + steps + copies, closing, held);
  }

  /** `Result.dump(to:)`: the version's header, then the records one level
      deeper, exactly as the database writes a version section. */
  method DumpResult(result: QueryResult, w: StringWriter, ghost indentation: int, ghost column: int)
    returns (ghost entries: seq<Entry>)
    requires w.indentation == indentation >= 0 && w.column == column
    modifies w
    ensures IsEnumeration(entries, result.records.Items)
    ensures w.buffer == old(w.buffer) + Layout(VersionSection(result.version, entries), indentation, column)
    ensures w.indentation == indentation && w.column == 0
  {
    entries := DumpVersion(result.version, result.records, w, indentation, column);
    SectionLayout(VersionHeader(result.version), RecordLines(entries), indentation, column);
    Regroup(old(w.buffer), LineText(column, indentation, VersionHeader(result.version)),
            Layout(RecordLines(entries), indentation + 1, 0));
  }
}

/** A macOS installer app and how its version is found: from the
    `SystemVersion.plist` of `BaseSystem.dmg`, which sits under
    `Contents/SharedSupport` in newer installers and inside `InstallESD.dmg`
    in older ones. A detach is issued for every disk image attached to read
    it; a detach that fails leaves that image attached. */
module Installers {
  import opened Wrappers
  import opened Text
  import opened SystemVersions
  import opened FirmwareConfig
  import opened Host

  datatype Installer = Installer(version: SystemVersion, url: Path)

  const ProductVersionKey := "ProductVersion"
  const ProductBuildVersionKey := "ProductBuildVersion"

  function EsdPath(app: Path): Path
  {
    Child(app, "Contents/SharedSupport/InstallESD.dmg")
  }

  function SharedBaseSystemPath(app: Path): Path
  {
    Child(app, "Contents/SharedSupport/BaseSystem.dmg")
  }

  /** The `SystemVersion.plist` of a system volume mounted at `mountPoint`. */
  function VersionPlistPath(mountPoint: Path): Path
  {
    Child(mountPoint, "System/Library/CoreServices/SystemVersion.plist")
  }

  /** Reading the dictionary does not trap: when both strings are present,
      the version is one whose integer tokens parse. */
  predicate VersionReadable(d: Dictionary)
  {
    StringAt(d, ProductVersionKey).Some? && StringAt(d, ProductBuildVersionKey).Some?
    ==> Parsable(StringAt(d, ProductVersionKey).value)
  }

  /** Every property list of the host reads without trapping. */
  predicate Readable(host: Host)
  {
    forall p :: p in host.plists ==> VersionReadable(host.plists[p])
  }

  /** `SystemVersion(plistFile:)`: the file must load as a dictionary holding
      both strings, and the version must parse. */
  function PlistVersion(file: Option<Dictionary>): (r: Option<SystemVersion>)
    requires file.Some? ==> VersionReadable(file.value)
    ensures r.Some? <==> file.Some? && StringAt(file.value, ProductVersionKey).Some?
                         && StringAt(file.value, ProductBuildVersionKey).Some?
                         && Parse(StringAt(file.value, ProductVersionKey).value,
                                  StringAt(file.value, ProductBuildVersionKey).value).Some?
    ensures r.Some? ==> r.value.version == StringAt(file.value, ProductVersionKey).value
                        && r.value.buildVersion == StringAt(file.value, ProductBuildVersionKey).value
  {
    if file.None? then None
    else
      var version, build := StringAt(file.value, ProductVersionKey), StringAt(file.value, ProductBuildVersionKey);
      if version.Some? && build.Some? then Parse(version.value, build.value) else None
  }

  /** `SystemVersion(mountPoint:)`. */
  function VersionAt(host: Host, mountPoint: Path): Option<SystemVersion>
    requires Readable(host)
  {
    PlistVersion(host.ReadPlist(VersionPlistPath(mountPoint)))
  }

  /** The events of one visit of `image`, with `inner` happening while it is
      attached: nothing; a mount point whose creation failed; a created
      mount point and a failed attach; or a created mount point, a
      successful attach, then `inner`, then the detach of the same mount
      point, with whatever outcome. */
  predicate IsVisit(image: Path, events: seq<Event>, inner: seq<Event>)
  {
    || |events| == 0
    || (events[0].Created?
        && (|| events == [Created(events[0].at, false)]
            || events == [Created(events[0].at, true), Attached(image, events[0].at, false)]
            || events == [Created(events[0].at, true), Attached(image, events[0].at, true)] + inner
                         + [Detached(events[0].at, true)]
            || events == [Created(events[0].at, true), Attached(image, events[0].at, true)] + inner
                         + [Detached(events[0].at, false)]))
  }

  /** The version read during a visit: the volume's, once it was attached. */
  function VisitVersion(host: Host, events: seq<Event>): Option<SystemVersion>
    requires Readable(host)
  {
    if |events| > 2 && events[0].Created? then VersionAt(host, events[0].at) else None
  }

  /** The events between a visit's attach and its detach. */
  function Inner(events: seq<Event>): seq<Event>
  {
    if |events| > 2 then events[2..|events| - 1] else []
  }

  /** The events of `getSystemVersion(fromBaseSystem:)` on `image`, started
      when `n` fresh paths had been handed out: a visit with nothing inside,
      at the next fresh path, which takes place exactly when the image file
      exists. */
  predicate IsBaseSystemVisit(host: Host, image: Path, n: nat, events: seq<Event>)
  {
    IsVisit(image, events, []) && (host.Exists(image) <==> events != [])
    && (events != [] ==> events[0].at == host.FreshPath(n))
  }

  /** The events of `getSystemVersion(fromInstallESD:)` on `image`, started
      when `n` fresh paths had been handed out: a visit at the next fresh
      path that always starts, during which the `BaseSystem.dmg` at the root
      of the mounted volume is visited. */
  predicate IsInstallESDVisit(host: Host, image: Path, n: nat, events: seq<Event>)
  {
    IsVisit(image, events, Inner(events)) && events != [] && events[0].Created? && events[0].at == host.FreshPath(n)
    && (|events| > 2 ==> IsBaseSystemVisit(host, Child(events[0].at, "BaseSystem.dmg"), n + 1, Inner(events)))
  }

  /** A visit creates one directory, when it starts, besides those created
      inside it. */
  lemma {:induction false} VisitCreations(image: Path, events: seq<Event>, inner: seq<Event>)
    requires IsVisit(image, events, inner)
    ensures Creations(events) == if events == [] then 0 else if |events| > 2 then 1 + Creations(inner) else 1
  {
    if |events| > 2 {
      var at := events[0].at;
      var opening, closing := [Created(at, true), Attached(image, at, true)], [Detached(at, events[|events| - 1].ok)];
      assert events == opening + inner + closing;
      CreationsAppend(opening + inner, closing);
      CreationsAppend(opening, inner);
      assert opening[1..][1..] == [] && closing[1..] == [];
    } else if |events| == 2 {
      var at := events[0].at;
      assert events == [Created(at, true), Attached(image, at, false)];
      assert events[1..] == [Attached(image, at, false)] && events[1..][1..] == [];
      assert Creations(events[1..]) == 0;
    } else if |events| == 1 {
      assert events[1..] == [];
    }
  }

  /** Every visit is balanced when what happens inside it is. */
  lemma VisitBalanced(image: Path, events: seq<Event>, inner: seq<Event>)
    requires IsVisit(image, events, inner) && Balanced(inner)
    ensures Balanced(events)
  {
    if |events| > 2 {
      var at, closing := events[0].at, [Detached(events[0].at, events[|events| - 1].ok)];
      assert events == [Created(at, true), Attached(image, at, true)] + inner + closing;
      assert events[1..][1..] == inner + closing;
      ReplayOnTop(inner, [at], [], []);
      assert [at] + [] == [at];
      ReplayAppend(inner, closing, [at]);
      assert [at][..0] == [];
      assert Replay(closing, [at]) == Replay([], []);
      assert [] + [at] == [at];
      assert Replay(events, []) == Replay(events[1..][1..], [at]);
      assert Replay(inner, [at]) == Some([at]);
    } else if |events| == 2 {
      assert events[1..][1..] == [];
      assert Replay(events, []) == Replay(events[1..], []);
      assert Replay(events[1..], []) == Replay(events[1..][1..], []);
    } else if |events| == 1 {
      assert events[1..] == [];
    }
  }

  /** `getSystemVersion(fromInstallESD:)` is balanced: the detach of the
      inner image is issued before the outer one's. */
  lemma InstallESDVisitBalanced(host: Host, image: Path, n: nat, events: seq<Event>)
    requires IsInstallESDVisit(host, image, n, events)
    ensures Balanced(events)
  {
    if |events| > 2 {
      VisitBalanced(Child(events[0].at, "BaseSystem.dmg"), Inner(events), []);
    }
    VisitBalanced(image, events, Inner(events));
  }

  /** What a visit leaves attached: nothing changes unless the image was
      attached; then the mount point is attached for the events inside,
      and released afterwards exactly when the detach succeeds. */
  lemma {:induction false} VisitHeld(image: Path, events: seq<Event>, inner: seq<Event>, held: set<Path>)
    requires IsVisit(image, events, inner)
    ensures |events| <= 2 ==> Held(events, held) == held && DetachFailures(events) == {}
    ensures |events| > 2 ==>
              var at, detached := events[0].at, events[|events| - 1].ok;
              && Held(events, held) == (if detached then Held(inner, held + {at}) - {at} else Held(inner, held + {at}))
              && DetachFailures(events) == DetachFailures(inner) + (if detached then {} else {at})
  {
    if |events| > 2 {
      var at, detached := events[0].at, events[|events| - 1].ok;
      var opening, closing := [Created(at, true), Attached(image, at, true)], [Detached(at, detached)];
      assert events == opening + inner + closing;
      HeldAppend(opening + inner, closing, held);
      HeldAppend(opening, inner, held);
      DetachFailuresAppend(opening + inner, closing);
      DetachFailuresAppend(opening, inner);
      assert opening[1..][1..] == [] && closing[1..] == [];
      assert Held(opening, held) == held + {at} by {
        assert Held(opening, held) == Held(opening[1..], held);
        assert Held(opening[1..], held) == Held(opening[1..][1..], held + {at});
      }
      assert DetachFailures(opening) == {} by {
        assert DetachFailures(opening[1..]) == DetachFailures(opening[1..][1..]);
      }
    } else if |events| == 2 {
      assert events[1..] == [events[1]] && events[1..][1..] == [];
      assert Held(events[1..], held) == held;
      assert DetachFailures(events[1..]) == {};
    } else if |events| == 1 {
      assert events[1..] == [];
    }
  }

  /** `getSystemVersion(fromBaseSystem:)` on a fresh mount point leaves that
      mount point attached exactly when its detach fails. */
  lemma BaseSystemVisitHeld(host: Host, image: Path, n: nat, events: seq<Event>, held: set<Path>)
    requires IsBaseSystemVisit(host, image, n, events) && host.FreshPath(n) !in held
    ensures DetachFailures(events) <= {host.FreshPath(n)}
    ensures Held(events, held) == held + DetachFailures(events)
  {
    VisitHeld(image, events, [], held);
    if |events| > 2 {
      assert Held([], held + {host.FreshPath(n)}) == held + {host.FreshPath(n)};
      assert DetachFailures([]) == {};
    }
  }

  /** `getSystemVersion(fromInstallESD:)` on fresh mount points leaves
      attached exactly the mount points whose detach failed: its own, the
      nested `BaseSystem.dmg`'s, both or neither. */
  lemma InstallESDVisitHeld(host: Host, image: Path, n: nat, events: seq<Event>, held: set<Path>)
    requires IsInstallESDVisit(host, image, n, events)
    requires host.FreshPath(n) !in held && host.FreshPath(n + 1) !in held
    ensures DetachFailures(events) <= {host.FreshPath(n), host.FreshPath(n + 1)}
    ensures Held(events, held) == held + DetachFailures(events)
  {
    var inner := Inner(events);
    VisitHeld(image, events, inner, held);
    if |events| > 2 {
      var at, nested := host.FreshPath(n), host.FreshPath(n + 1);
      assert at != nested by {
        if at == nested {
          host.FreshPathInjective(n, n + 1);
        }
      }
      BaseSystemVisitHeld(host, Child(at, "BaseSystem.dmg"), n + 1, inner, held + {at});
    }
  }

  /** `getSystemVersion(fromBaseSystem:)`: nothing happens when the image
      file is absent; otherwise a fresh mount point is created; a failed
      creation or attach returns `None`; otherwise the version is read from
      the volume and a detach issued, whose outcome does not change the
      result. */
  method FromBaseSystem(image: Path, host: Host) returns (version: Option<SystemVersion>, ghost events: seq<Event>)
    requires Readable(host)
    modifies host
    ensures host.log == old(host.log) + events
    ensures IsBaseSystemVisit(host, image, old(host.issued), events)
    ensures host.issued == old(host.issued) + Creations(events)
    ensures version == VisitVersion(host, events)
  {
    if !host.Exists(image) {
      return None, [];
    }
    var mountPoint := host.TemporaryDirectory();
    if mountPoint.None? {
      events := [Created(host.FreshPath(old(host.issued)), false)];
      VisitCreations(image, events, []);
      return None, events;
    }
    var attached := host.Attach(image, mountPoint.value);
    if !attached {
      events := [Created(mountPoint.value, true), Attached(image, mountPoint.value, false)];
      VisitCreations(image, events, []);
      return None, events;
    }
    version := VersionAt(host, mountPoint.value);
    var detached := host.Detach(mountPoint.value);
    events := [Created(mountPoint.value, true), Attached(image, mountPoint.value, true), Detached(mountPoint.value, detached)];
    assert events == [Created(mountPoint.value, true), Attached(image, mountPoint.value, true)] + []
                     + [Detached(mountPoint.value, events[|events| - 1].ok)];
    VisitCreations(image, events, []);
  }

  /** The events of a visit whose image was attached at `at`, with `inner`
      in between, as the log records them one by one. */
  lemma NestedVisitLog(log: seq<Event>, at: Path, image: Path, inner: seq<Event>, detached: bool)
    returns (events: seq<Event>)
    ensures events == [Created(at, true), Attached(image, at, true)] + inner + [Detached(at, detached)]
    ensures log + [Created(at, true)] + [Attached(image, at, true)] + inner + [Detached(at, detached)] == log + events
    ensures IsVisit(image, events, inner) && Inner(events) == inner && |events| > 2
  {
    events := [Created(at, true), Attached(image, at, true)] + inner + [Detached(at, detached)];
    assert events[0] == Created(at, true) && events[|events| - 1] == Detached(at, detached);
    assert events[2..|events| - 1] == inner;
  }

  /** `getSystemVersion(fromInstallESD:)`: create a fresh mount point,
      attach the image, read the version from the `BaseSystem.dmg` at its
      root, detach the image; `None` when the creation or the attach
      fails. */
  method FromInstallESD(image: Path, host: Host) returns (version: Option<SystemVersion>, ghost events: seq<Event>)
    requires Readable(host)
    modifies host
    ensures host.log == old(host.log) + events
    ensures IsInstallESDVisit(host, image, old(host.issued), events)
    ensures host.issued == old(host.issued) + Creations(events)
    ensures version == VisitVersion(host, Inner(events))
  {
    var mountPoint := host.TemporaryDirectory();
    if mountPoint.None? {
      events := [Created(host.FreshPath(old(host.issued)), false)];
      VisitCreations(image, events, []);
      return None, events;
    }
    var attached := host.Attach(image, mountPoint.value);
    if !attached {
      events := [Created(mountPoint.value, true), Attached(image, mountPoint.value, false)];
      VisitCreations(image, events, []);
      return None, events;
    }
    ghost var inner;
    version, inner := FromBaseSystem(Child(mountPoint.value, "BaseSystem.dmg"), host);
    var detached := host.Detach(mountPoint.value);
    events := NestedVisitLog(old(host.log), mountPoint.value, image, inner, detached);
    VisitCreations(image, events, inner);
  }

  /** The events of `init?(app:)` on the app at `app`, started when `n`
      fresh paths had been handed out, split into the visit of the shared
      `BaseSystem.dmg` (`first`) and the visit of `InstallESD.dmg`
      (`second`): none without `InstallESD.dmg`; otherwise the shared
      `BaseSystem.dmg` is visited, and `InstallESD.dmg` exactly when that
      gives no version, each at the next fresh paths. */
  predicate CreateVisits(host: Host, app: Path, n: nat, first: seq<Event>, second: seq<Event>)
    requires Readable(host)
  {
    if !host.Exists(EsdPath(app)) then first == [] && second == []
    else
      IsBaseSystemVisit(host, SharedBaseSystemPath(app), n, first)
      && if VisitVersion(host, first).Some? then second == []
         else IsInstallESDVisit(host, EsdPath(app), n + Creations(first), second)
  }

  /** The version `init?(app:)` finds from its visits: the shared
      `BaseSystem.dmg`'s when it has one, otherwise the nested one of
      `InstallESD.dmg`. */
  function VisitedVersion(host: Host, first: seq<Event>, second: seq<Event>): Option<SystemVersion>
    requires Readable(host)
  {
    if VisitVersion(host, first).Some? then VisitVersion(host, first) else VisitVersion(host, Inner(second))
  }

  /** The installer of the app at `app` with the version found, if any. */
  function InstallerOf(app: Path, version: Option<SystemVersion>): Option<Installer>
  {
    match version
    case Some(v) => Some(Installer(v, app))
    case None => None
  }

  /** `init?(app:)`: `None`, touching nothing, without `InstallESD.dmg`;
      otherwise the shared `BaseSystem.dmg` is tried first and
      `InstallESD.dmg` only when that gives no version, and the installer
      carries the version found. */
  method Create(app: Path, host: Host) returns (installer: Option<Installer>, ghost first: seq<Event>, ghost second: seq<Event>)
    requires Readable(host)
    modifies host
    ensures host.log == old(host.log) + first + second
    ensures CreateVisits(host, app, old(host.issued), first, second)
    ensures host.issued == old(host.issued) + Creations(first) + Creations(second)
    ensures installer == InstallerOf(app, VisitedVersion(host, first, second))
  {
    if !host.Exists(EsdPath(app)) {
      return None, [], [];
    }
    var version;
    version, first := FromBaseSystem(SharedBaseSystemPath(app), host);
    if version.Some? {
      return Some(Installer(version.value, app)), first, [];
    }
    version, second := FromInstallESD(EsdPath(app), host);
    installer := if version.Some? then Some(Installer(version.value, app)) else None;
  }

  /** Whatever `init?(app:)` does, a detach is issued for every image it
      attached, innermost first. */
  lemma CreateBalanced(host: Host, app: Path, n: nat, first: seq<Event>, second: seq<Event>)
    requires Readable(host) && CreateVisits(host, app, n, first, second)
    ensures Balanced(first + second)
  {
    VisitBalanced(SharedBaseSystemPath(app), first, []);
    if second != [] {
      InstallESDVisitBalanced(host, EsdPath(app), n + Creations(first), second);
    }
    BalancedAfter(first, second, []);
  }

  /** A mount point handed out after a base-system visit is neither held
      before it nor left attached by it. */
  lemma FreshAfterBaseSystemVisit(host: Host, image: Path, n: nat, first: seq<Event>, held: set<Path>, k: nat)
    requires IsBaseSystemVisit(host, image, n, first) && host.FreshPath(n) !in held
    requires n + Creations(first) <= k && host.FreshPath(k) !in held
    ensures host.FreshPath(k) !in held + DetachFailures(first)
  {
    VisitCreations(image, first, []);
    BaseSystemVisitHeld(host, image, n, first, held);
    if host.FreshPath(k) in DetachFailures(first) {
      host.FreshPathInjective(k, n);
    }
  }

  /** A base-system visit followed by no visit or an `InstallESD.dmg` visit,
      on fresh mount points, leaves attached exactly the mount points whose
      detach failed. */
  lemma VisitsHeld(host: Host, base: Path, esd: Path, n: nat, first: seq<Event>, second: seq<Event>, held: set<Path>)
    requires IsBaseSystemVisit(host, base, n, first)
    requires second == [] || IsInstallESDVisit(host, esd, n + Creations(first), second)
    requires forall k: nat :: n <= k ==> host.FreshPath(k) !in held
    ensures Held(first + second, held) == held + DetachFailures(first + second)
  {
    HeldAppend(first, second, held);
    DetachFailuresAppend(first, second);
    assert host.FreshPath(n) !in held;
    BaseSystemVisitHeld(host, base, n, first, held);
    if second == [] {
      return;
    }
    var m := n + Creations(first);
    assert host.FreshPath(m) !in held && host.FreshPath(m + 1) !in held;
    FreshAfterBaseSystemVisit(host, base, n, first, held, m);
    FreshAfterBaseSystemVisit(host, base, n, first, held, m + 1);
    InstallESDVisitHeld(host, esd, m, second, held + DetachFailures(first));
  }

  /** Whatever `init?(app:)` does on fresh mount points, the images it leaves
      attached are exactly those whose detach failed. */
  lemma CreateHeld(host: Host, app: Path, n: nat, first: seq<Event>, second: seq<Event>, held: set<Path>)
    requires Readable(host) && CreateVisits(host, app, n, first, second)
    requires forall k: nat :: n <= k ==> host.FreshPath(k) !in held
    ensures Held(first + second, held) == held + DetachFailures(first + second)
  {
    if !host.Exists(EsdPath(app)) {
      assert first + second == [];
    } else {
      VisitsHeld(host, SharedBaseSystemPath(app), EsdPath(app), n, first, second, held);
    }
  }

  /** `mountInstallESD(at:)`. */
  method MountInstallESD(installer: Installer, at: Path, host: Host) returns (ok: bool)
    modifies host
    ensures host.log == old(host.log) + [Attached(EsdPath(installer.url), at, ok)]
    ensures host.issued == old(host.issued)
  {
    ok := host.Attach(EsdPath(installer.url), at);
  }
}

/** The operating system as the query pipeline sees it: which files exist,
    what directories list and property lists hold, fresh temporary paths,
    creating directories, `hdiutil` attaching and detaching disk images,
    `pkgutil` expanding a package and copying a folder. What the disk holds
    is given as fixed tables; whether each step succeeds is left open, so
    every property proved about a caller holds whatever the system answers.
    Every step is recorded, with its outcome, in a log. */
module Host {
  import opened Wrappers
  import opened Text
  import opened FirmwareConfig

  type Path = string

  /** `appendingPathComponent`. */
  function Child(dir: Path, name: string): Path
  {
    dir + "/" + name
  }

  /** One step taken on the system, with its outcome: creating the directory
      `at`; an `hdiutil` attach of `image` at `at`; an `hdiutil` detach of
      the volume mounted at `at` (a failed one leaves the volume attached);
      `pkgutil` expanding `package` into `into`; copying the folder `from`
      to `to`. */
  datatype Event =
    | Created(at: Path, ok: bool)
    | Attached(image: Path, at: Path, ok: bool)
    | Detached(at: Path, ok: bool)
    | Expanded(package: Path, into: Path, ok: bool)
    | Copied(from: Path, to: Path, ok: bool)

  /** Replays the detaches the code issues against the stack of mount points
      it has attached and not yet asked to detach: a successful attach pushes
      its mount point, a failed one changes nothing, a detach, whatever its
      outcome, must pop the most recently attached mount point (`None` when
      it names anything else), and the other steps mount nothing. Whether a
      detach really released the volume is `Held`'s business. */
  function Replay(events: seq<Event>, open: seq<Path>): Option<seq<Path>>
  {
    if |events| == 0 then Some(open)
    else match events[0]
      case Attached(_, at, ok) => Replay(events[1..], if ok then open + [at] else open)
      case Detached(at, _) =>
        if |open| > 0 && open[|open| - 1] == at then Replay(events[1..], open[..|open| - 1]) else None
      case _ => Replay(events[1..], open)
  }

  /** A detach is issued exactly once for every successful attach, innermost
      first, and for nothing else. */
  predicate Balanced(events: seq<Event>)
  {
    Replay(events, []) == Some([])
  }

  /** Replaying a concatenation replays the first part, then the second from
      where the first left off. */
  lemma {:induction false} ReplayAppend(a: seq<Event>, b: seq<Event>, open: seq<Path>)
    ensures Replay(a + b, open) == match Replay(a, open) case None => None case Some(s) => Replay(b, s)
  {
    if |a| > 0 {
      assert (a + b)[0] == a[0];
      assert (a + b)[1..] == a[1..] + b;
      match a[0]
      case Attached(_, at, ok) =>
        ReplayAppend(a[1..], b, if ok then open + [at] else open);
      case Detached(at, _) =>
        if |open| > 0 && open[|open| - 1] == at {
          ReplayAppend(a[1..], b, open[..|open| - 1]);
        }
      case _ =>
        ReplayAppend(a[1..], b, open);
    } else {
      assert a + b == b;
    }
  }

  /** Events that replay from an empty stack replay the same way on top of
      mount points attached earlier, which they leave alone. */
  lemma {:induction false} ReplayOnTop(events: seq<Event>, base: seq<Path>, open: seq<Path>, result: seq<Path>)
    requires Replay(events, open) == Some(result)
    ensures Replay(events, base + open) == Some(base + result)
  {
    if |events| > 0 {
      match events[0]
      case Attached(_, at, ok) =>
        var next := if ok then open + [at] else open;
        assert (if ok then (base + open) + [at] else base + open) == base + next;
        ReplayOnTop(events[1..], base, next, result);
      case Detached(at, _) =>
        assert |open| > 0 && open[|open| - 1] == at;
        assert (base + open)[..|base + open| - 1] == base + open[..|open| - 1];
        ReplayOnTop(events[1..], base, open[..|open| - 1], result);
      case _ =>
        ReplayOnTop(events[1..], base, open, result);
    }
  }

  /** The mount points really attached after `events`, starting from `held`:
      a successful attach adds its mount point, a successful detach removes
      it, and a failed detach leaves it attached. */
  function Held(events: seq<Event>, held: set<Path>): set<Path>
  {
    if |events| == 0 then held
    else match events[0]
      case Attached(_, at, ok) => Held(events[1..], if ok then held + {at} else held)
      case Detached(at, ok) => Held(events[1..], if ok then held - {at} else held)
      case _ => Held(events[1..], held)
  }

  /** What a log leaves attached is what its second part leaves attached
      after its first part. */
  lemma {:induction false} HeldAppend(a: seq<Event>, b: seq<Event>, held: set<Path>)
    ensures Held(a + b, held) == Held(b, Held(a, held))
  {
    if |a| > 0 {
      assert (a + b)[0] == a[0];
      assert (a + b)[1..] == a[1..] + b;
      match a[0]
      case Attached(_, at, ok) =>
        HeldAppend(a[1..], b, if ok then held + {at} else held);
      case Detached(at, ok) =>
        HeldAppend(a[1..], b, if ok then held - {at} else held);
      case _ =>
        HeldAppend(a[1..], b, held);
    } else {
      assert a + b == b;
    }
  }

  /** The mount points of the detaches in `events` that failed. */
  function DetachFailures(events: seq<Event>): set<Path>
  {
    if |events| == 0 then {}
    else (if events[0].Detached? && !events[0].ok then {events[0].at} else {}) + DetachFailures(events[1..])
  }

  /** The failed detaches of a log are those of its two parts. */
  lemma {:induction false} DetachFailuresAppend(a: seq<Event>, b: seq<Event>)
    ensures DetachFailures(a + b) == DetachFailures(a) + DetachFailures(b)
  {
    if |a| > 0 {
      assert (a + b)[0] == a[0];
      assert (a + b)[1..] == a[1..] + b;
      DetachFailuresAppend(a[1..], b);
    } else {
      assert a + b == b;
    }
  }

  /** Steps that neither attach nor detach leave attached what was. */
  lemma {:induction false} HeldUnmounting(events: seq<Event>, held: set<Path>)
    requires forall i :: 0 <= i < |events| ==> !events[i].Attached? && !events[i].Detached?
    ensures Held(events, held) == held
  {
    if |events| > 0 {
      assert !events[0].Attached? && !events[0].Detached?;
      HeldUnmounting(events[1..], held);
    }
  }

  /** The number of directories a log creates or tries to create. */
  function Creations(events: seq<Event>): nat
  {
    if |events| == 0 then 0 else (if events[0].Created? then 1 else 0) + Creations(events[1..])
  }

  /** Counting creations is additive over concatenation. */
  lemma {:induction false} CreationsAppend(a: seq<Event>, b: seq<Event>)
    ensures Creations(a + b) == Creations(a) + Creations(b)
  {
    if |a| > 0 {
      assert (a + b)[0] == a[0];
      assert (a + b)[1..] == a[1..] + b;
      CreationsAppend(a[1..], b);
    } else {
      assert a + b == b;
    }
  }

  /** Balanced events after others leave the mount points awaiting a detach
      as they were. */
  lemma BalancedAfter(before: seq<Event>, events: seq<Event>, open: seq<Path>)
    requires Replay(before, []) == Some(open) && Balanced(events)
    ensures Replay(before + events, []) == Some(open)
  {
    ReplayAppend(before, events, []);
    ReplayOnTop(events, open, [], []);
    assert open + [] == open;
  }

  /** The host. */
  class Host {
    /** `FileManager.default.temporaryDirectory`. */
    const temporaryDirectory: Path
    /** The paths `fileExists(atPath:)` reports. */
    const files: set<Path>
    /** What `contentsOfDirectory(at:…, options: .skipsHiddenFiles)` lists:
        the names in each directory it can read. */
    const listings: map<Path, seq<string>>
    /** What `NSDictionary(contentsOf:)` loads from each readable property
        list. */
    const plists: map<Path, Dictionary>
    /** How many fresh names (`UUID().uuidString`) have been handed out. */
    var issued: nat
    /** Every step taken so far, in order, with its outcome; `Held(log, {})`
        is the set of volumes attached now. */
    ghost var log: seq<Event>

    constructor (temporaryDirectory: Path, files: set<Path>, listings: map<Path, seq<string>>, plists: map<Path, Dictionary>)
      ensures this.temporaryDirectory == temporaryDirectory && this.files == files
      ensures this.listings == listings && this.plists == plists
      ensures issued == 0 && log == []
    {
      this.temporaryDirectory := temporaryDirectory;
      this.files := files;
      this.listings := listings;
      this.plists := plists;
      issued := 0;
      log := [];
    }

    /** `fileExists(atPath:)`. */
    predicate Exists(path: Path)
    {
      path in files
    }

    /** `contentsOfDirectory`: the names in the directory, or `None` when it
        throws. */
    function Listing(dir: Path): Option<seq<string>>
    {
      if dir in listings then Some(listings[dir]) else None
    }

    /** `NSDictionary(contentsOf:)`: the dictionary, or `None` when the file
        is missing or not a dictionary. */
    function ReadPlist(path: Path): Option<Dictionary>
    {
      if path in plists then Some(plists[path]) else None
    }

    /** The path of the n-th fresh name under the temporary directory. */
    function FreshPath(n: nat): Path
    {
      Child(temporaryDirectory, DecimalText(n))
    }

    /** Fresh paths are distinct: each number names its own path. */
    lemma FreshPathInjective(m: nat, n: nat)
      requires FreshPath(m) == FreshPath(n)
      ensures m == n
    {
      var prefix := temporaryDirectory + "/";
      assert FreshPath(m)[|prefix|..] == DecimalText(m);
      assert FreshPath(n)[|prefix|..] == DecimalText(n);
      DecimalRoundTrip(m);
      DecimalRoundTrip(n);
    }

    /** A path under the temporary directory never handed out before (the
        directory is not created). */
    method NewPath() returns (path: Path)
      modifies this
      ensures path == FreshPath(old(issued)) && issued == old(issued) + 1
      ensures forall k: nat :: k < old(issued) ==> FreshPath(k) != path
      ensures log == old(log)
    {
      path := FreshPath(issued);
      forall k: nat | k < issued
        ensures FreshPath(k) != path
      {
        if FreshPath(k) == path {
          FreshPathInjective(k, issued);
        }
      }
      issued := issued + 1;
    }

    /** `createDirectory(at:withIntermediateDirectories:)`, which may throw. */
    method CreateDirectory(at: Path) returns (ok: bool)
      modifies this
      ensures log == old(log) + [Created(at, ok)]
      ensures issued == old(issued)
    {
      ok :| true;
      log := log + [Created(at, ok)];
    }

    /** `randomTemporaryDirectory()`: the next fresh path, created as a
        directory, or `None` when creating it throws. */
    method TemporaryDirectory() returns (path: Option<Path>)
      modifies this
      ensures issued == old(issued) + 1
      ensures log == old(log) + [Created(FreshPath(old(issued)), path.Some?)]
      ensures path.Some? ==> path.value == FreshPath(old(issued))
    {
      var dir := NewPath();
      var created := CreateDirectory(dir);
      path := if created then Some(dir) else None;
    }

    /** `DiskImageMounter.attach(diskImage:at:)`: `hdiutil attach`, which may
        fail. */
    method Attach(image: Path, at: Path) returns (ok: bool)
      modifies this
      ensures log == old(log) + [Attached(image, at, ok)]
      ensures issued == old(issued)
    {
      ok :| true;
      log := log + [Attached(image, at, ok)];
    }

    /** `DiskImageMounter.detach(mountPoint:)`: `hdiutil detach`, which may
        fail and then leaves the volume attached. */
    method Detach(at: Path) returns (ok: bool)
      modifies this
      ensures log == old(log) + [Detached(at, ok)]
      ensures issued == old(issued)
    {
      ok :| true;
      log := log + [Detached(at, ok)];
    }

    /** `pkgutil --expand-full package into`: succeeds when it exits with
        status 0. */
    method Expand(package: Path, into: Path) returns (ok: bool)
      modifies this
      ensures log == old(log) + [Expanded(package, into, ok)]
      ensures issued == old(issued)
    {
      ok :| true;
      log := log + [Expanded(package, into, ok)];
    }

    /** `copyItem(at:to:)`, which may throw. */
    method Copy(from: Path, to: Path) returns (ok: bool)
      modifies this
      ensures log == old(log) + [Copied(from, to, ok)]
      ensures issued == old(issued)
    {
      ok :| true;
      log := log + [Copied(from, to, ok)];
    }
  }
}

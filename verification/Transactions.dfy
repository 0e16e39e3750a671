/** The three installer transactions over the managed files of a project: installation, upgrade and
    uninstallation. Any step may fail, before or after it took effect, and while files are being
    written somebody else may edit anything. */
module Transactions {
  import opened Options

  type Path = string
  datatype File = File(content: string, mode: nat)
  type Disk = map<Path, File>

  /** One managed path of a plan, as it was when the plan was made and as the plan leaves it. */
  datatype Entry = Entry(path: Path, before: Option<File>, after: Option<File>)

  datatype Outcome = Committed | RolledBack | RollbackFailed

  function Get(d: Disk, p: Path): Option<File> {
    if p in d then Some(d[p]) else None
  }

  function Set(d: Disk, p: Path, f: Option<File>): Disk {
    if f.Some? then d[p := f.value] else d - {p}
  }

  predicate Paths(plan: seq<Entry>) {
    forall i, j | 0 <= i < j < |plan| :: plan[i].path != plan[j].path
  }

  predicate Mentions(plan: seq<Entry>, p: Path) {
    exists i | 0 <= i < |plan| :: plan[i].path == p
  }

  predicate AllBefore(d: Disk, plan: seq<Entry>) {
    forall i | 0 <= i < |plan| :: Get(d, plan[i].path) == plan[i].before
  }

  predicate AllAfter(d: Disk, plan: seq<Entry>) {
    forall i | 0 <= i < |plan| :: Get(d, plan[i].path) == plan[i].after
  }

  /** Every path holds one of its two planned states: a rollback may overwrite it. */
  predicate Safe(d: Disk, plan: seq<Entry>, absentToo: bool) {
    forall i | 0 <= i < |plan| ::
      Get(d, plan[i].path) in {plan[i].before, plan[i].after} || (absentToo && Get(d, plan[i].path) == None)
  }

  /** Nothing but planned paths differs. */
  ghost predicate SameElsewhere(d: Disk, d': Disk, plan: seq<Entry>) {
    forall p | !Mentions(plan, p) :: Get(d', p) == Get(d, p)
  }

  /** A write happened, did not happen, or happened and was reported as a failure. */
  ghost predicate Written(d: Disk, d': Disk, p: Path, f: Option<File>, ok: bool) {
    (ok && d' == Set(d, p, f)) || (!ok && d' in {d, Set(d, p, f)})
  }

  /** A rollback writes the state from before to planned paths, and nothing else. */
  ghost predicate OnlyRestored(d: Disk, d': Disk, plan: seq<Entry>) {
    forall p :: RestoredAt(d, d', plan, p)
  }

  ghost predicate RestoredAt(d: Disk, d': Disk, plan: seq<Entry>, p: Path) {
    Get(d', p) == Get(d, p) || exists i | 0 <= i < |plan| :: plan[i].path == p && Get(d', p) == plan[i].before
  }

  /** It never overwrites, or removes, a file that is in neither of its two planned states. */
  ghost predicate OnlyOverwrites(d: Disk, d': Disk, plan: seq<Entry>, absentToo: bool) {
    forall p | Get(d', p) != Get(d, p) :: exists i | 0 <= i < |plan| :: Overwrites(Get(d, p), Get(d', p), plan[i], p, absentToo)
  }

  predicate Overwrites(was: Option<File>, now: Option<File>, e: Entry, p: Path, absentToo: bool) {
    e.path == p && now == e.before && (was in {e.before, e.after} || (absentToo && was == None))
  }

  lemma RestoredOverwrites(d: Disk, d': Disk, plan: seq<Entry>, absentToo: bool)
    requires OnlyRestored(d, d', plan) && Safe(d, plan, absentToo)
    ensures OnlyOverwrites(d, d', plan, absentToo)
  {
    forall p | Get(d', p) != Get(d, p)
      ensures exists i | 0 <= i < |plan| :: Overwrites(Get(d, p), Get(d', p), plan[i], p, absentToo)
    {
      assert RestoredAt(d, d', plan, p);
      var i :| 0 <= i < |plan| && plan[i].path == p && Get(d', p) == plan[i].before;
      assert Overwrites(Get(d, p), Get(d', p), plan[i], p, absentToo);
    }
  }

  lemma OverwritesWithin(d: Disk, d': Disk, plan: seq<Entry>, absentToo: bool)
    requires OnlyOverwrites(d, d', plan, absentToo)
    ensures SameElsewhere(d, d', plan)
  {
  }

  lemma OverwritesPart(d: Disk, d': Disk, plan: seq<Entry>, n: nat)
    requires n <= |plan| && OnlyOverwrites(d, d', plan[..n], false) && Paths(plan)
    ensures SameElsewhere(d, d', plan)
    ensures forall i | n <= i < |plan| :: Get(d', plan[i].path) == Get(d, plan[i].path)
  {
  }

  lemma SafePart(d: Disk, plan: seq<Entry>, n: nat)
    requires n <= |plan|
    ensures Safe(d, plan, false) ==> Safe(d, plan[..n], false)
    ensures Paths(plan) ==> Paths(plan[..n])
  {
  }

  /** Where a plan starts: nothing but what is planned differs from itself, and no path has been written. */
  lemma StartsSafe(d: Disk, plan: seq<Entry>, n: nat)
    requires n <= |plan|
    ensures AllBefore(d, plan) ==> Safe(d, plan, false) && BeforeFrom(d, plan, 0)
    ensures SameElsewhere(d, d, plan) && AllAfter(d, plan[..0])
  {
  }

  /** The paths without an action were where the plan wants them. */
  lemma WholePlan(start: Disk, d: Disk, plan: seq<Entry>, n: nat)
    requires n <= |plan| && (forall i | n <= i < |plan| :: plan[i].before == plan[i].after)
    requires Untouched(start, d, plan, n)
    ensures AllBefore(start, plan) && AllAfter(d, plan[..n]) ==> AllAfter(d, plan)
  {
    if AllBefore(start, plan) && AllAfter(d, plan[..n]) {
      forall i | 0 <= i < |plan|
        ensures Get(d, plan[i].path) == plan[i].after
      {
        if i < n {
          assert plan[..n][i] == plan[i];
        }
      }
    }
  }

  /** A rollback of the first paths of a plan, after an attempt that left every path in a planned state. */
  lemma BackTogether(start: Disk, failed: Disk, d: Disk, plan: seq<Entry>, n: nat)
    requires n <= |plan| && (forall i | n <= i < |plan| :: plan[i].before == plan[i].after)
    requires SameElsewhere(failed, d, plan) && forall i | n <= i < |plan| :: Get(d, plan[i].path) == Get(failed, plan[i].path)
    ensures SameElsewhere(start, failed, plan) ==> SameElsewhere(start, d, plan)
    ensures Safe(failed, plan, false) && AllBefore(d, plan[..n]) ==> AllBefore(d, plan)
  {
    if Safe(failed, plan, false) && AllBefore(d, plan[..n]) {
      forall i | 0 <= i < |plan|
        ensures Get(d, plan[i].path) == plan[i].before
      {
        if i < n {
          assert plan[..n][i] == plan[i];
        }
      }
    }
  }

  lemma RestoreKeeps(start: Disk, d: Disk, d': Disk, plan: seq<Entry>, i: nat, ok: bool)
    requires Paths(plan) && i < |plan| && Written(d, d', plan[i].path, plan[i].before, ok)
    requires OnlyRestored(start, d, plan) && AllBefore(d, plan[..i])
    ensures OnlyRestored(start, d', plan)
    ensures ok ==> AllBefore(d', plan[..i + 1])
  {
    forall p
      ensures RestoredAt(start, d', plan, p)
    {
      assert RestoredAt(start, d, plan, p);
      assert p != plan[i].path ==> Get(d', p) == Get(d, p);
    }
    if ok {
      var part := plan[..i + 1];
      forall j | 0 <= j < |part|
        ensures Get(d', part[j].path) == part[j].before
      {
        if j < i {
          assert plan[..i][j] == plan[j];
        }
      }
    }
  }

  lemma WriteKeeps(d: Disk, d': Disk, plan: seq<Entry>, i: nat, ok: bool)
    requires Paths(plan) && i < |plan| && Written(d, d', plan[i].path, plan[i].after, ok)
    ensures forall p | !Mentions(plan, p) :: Get(d', p) == Get(d, p)
    ensures Safe(d, plan, false) ==> Safe(d', plan, false)
    ensures ok && AllAfter(d, plan[..i]) ==> AllAfter(d', plan[..i + 1])
  {
  }

  /** A path that the loop changes went from its one planned state to the other. */
  ghost predicate OnlyWritten(d: Disk, d': Disk, plan: seq<Entry>) {
    forall p | Get(d', p) != Get(d, p) :: exists i | 0 <= i < |plan| :: Moved(d, d', plan[i], p)
  }

  predicate Moved(d: Disk, d': Disk, e: Entry, p: Path) {
    e.path == p && Get(d, p) == e.before && Get(d', p) == e.after
  }

  /** From here on the plan has not been carried out. */
  ghost predicate Untouched(d: Disk, d': Disk, plan: seq<Entry>, from: nat) {
    forall j | from <= j < |plan| :: Get(d', plan[j].path) == Get(d, plan[j].path)
  }

  predicate BeforeFrom(d: Disk, plan: seq<Entry>, from: nat) {
    forall j | from <= j < |plan| :: Get(d, plan[j].path) == plan[j].before
  }

  lemma WritesOne(start: Disk, d: Disk, d': Disk, plan: seq<Entry>, i: nat, ok: bool)
    requires Paths(plan) && i < |plan| && OnlyWritten(start, d, plan) && Get(d, plan[i].path) == Get(start, plan[i].path)
    requires Written(d, d', plan[i].path, plan[i].after, ok) && (d' != d ==> Get(d, plan[i].path) == plan[i].before)
    ensures OnlyWritten(start, d', plan)
    ensures forall j | i < j < |plan| :: Get(d', plan[j].path) == Get(d, plan[j].path)
  {
    forall p | Get(d', p) != Get(start, p)
      ensures exists j | 0 <= j < |plan| :: Moved(start, d', plan[j], p)
    {
      if p == plan[i].path {
        assert Moved(start, d', plan[i], p);
      } else {
        var j :| 0 <= j < |plan| && Moved(start, d, plan[j], p);
        assert Moved(start, d', plan[j], p);
      }
    }
  }

  class Project {
    var disk: Disk
    /** The active manifest; None when there is none. */
    var manifest: Option<nat>
    var marker: Option<nat>
    /** What has been read since the last write, and whether the manifest was seen unchanged after that. */
    ghost var looked: map<Path, Option<File>>
    ghost var confirmed: bool
    /** How many steps have reported a failure. */
    ghost var faults: nat
    /** How often the caller's own verification was run. */
    ghost var verifications: nat
    /** Nobody else edits the project while files are written. */
    const calm: bool
    /** No step of a rollback fails. */
    const reliable: bool
    /** No step fails at all. */
    const faultless: bool

    constructor (disk: Disk, manifest: Option<nat>, marker: Option<nat>, calm: bool, reliable: bool, faultless: bool)
      ensures this.disk == disk && this.manifest == manifest && this.marker == marker
      ensures this.calm == calm && this.reliable == reliable && this.faultless == faultless
    {
      this.disk, this.manifest, this.marker := disk, manifest, marker;
      this.calm, this.reliable, this.faultless := calm, reliable, faultless;
      looked, confirmed, faults, verifications := map[], false, 0, 0;
    }

    // -------------------------------------------------------------- single steps

    method Interfere(quiet: bool)
      modifies `disk, `manifest, `marker
      ensures calm || quiet ==> disk == old(disk) && manifest == old(manifest) && marker == old(marker)
    {
      if !calm && !quiet {
        disk := *;
        manifest := *;
        marker := *;
      }
    }

    method Fails(quiet: bool) returns (fault: bool)
      modifies `faults
      ensures (quiet && reliable) || faultless ==> !fault
      ensures faults == old(faults) + if fault then 1 else 0
    {
      fault := *;
      fault := fault && !(quiet && reliable) && !faultless;
      faults := faults + if fault then 1 else 0;
    }

    method Read(p: Path, quiet: bool) returns (ok: bool, f: Option<File>)
      modifies `disk, `manifest, `marker, `looked, `confirmed, `faults
      ensures calm || quiet ==> disk == old(disk) && manifest == old(manifest) && marker == old(marker)
      ensures ok ==> f == Get(disk, p)
      ensures looked == (if ok then old(looked)[p := f] else old(looked)) && !confirmed
      ensures faults >= old(faults) && (ok <==> faults == old(faults))
      ensures (quiet && reliable) || faultless ==> ok
    {
      Interfere(quiet);
      var fault := Fails(quiet);
      ok, f := !fault, Get(disk, p);
      looked, confirmed := if ok then looked[p := f] else looked, false;
    }

    /** The new file gets its name only if nothing has that name. */
    method Publish(p: Path, f: File, quiet: bool) returns (ok: bool)
      modifies `disk, `looked, `confirmed, `faults
      ensures Written(old(disk), disk, p, Some(f), ok) && !confirmed && (disk == old(disk) || looked == map[]) && (ok ==> looked == map[])
      ensures old(p in disk) ==> !ok && disk == old(disk)
      ensures faults >= old(faults) && (ok <==> faults == old(faults))
      ensures old(p !in disk) && ((quiet && reliable) || faultless) ==> ok
    {
      confirmed := false;
      var fault := Fails(quiet);
      if p in disk && !fault {
        faults := faults + 1;
      }
      if fault || p in disk {
        return false;
      }
      disk, looked := disk[p := f], map[];
      fault := Fails(quiet);
      ok := !fault;
    }

    /** An atomic replacement, whatever the name stands for at that moment. */
    method Replace(p: Path, f: File, quiet: bool) returns (ok: bool)
      modifies `disk, `looked, `confirmed, `faults
      ensures Written(old(disk), disk, p, Some(f), ok) && !confirmed && (disk == old(disk) || looked == map[]) && (ok ==> looked == map[])
      ensures faults >= old(faults) && (ok <==> faults == old(faults))
      ensures (quiet && reliable) || faultless ==> ok
    {
      confirmed := false;
      var fault := Fails(quiet);
      if fault {
        return false;
      }
      disk, looked := disk[p := f], map[];
      fault := Fails(quiet);
      ok := !fault;
    }

    /** Removing a file that is gone is a failure. */
    method Unlink(p: Path, quiet: bool) returns (ok: bool)
      modifies `disk, `looked, `confirmed, `faults
      ensures Written(old(disk), disk, p, None, ok) && !confirmed && (disk == old(disk) || looked == map[]) && (ok ==> looked == map[])
      ensures old(p !in disk) ==> !ok
      ensures faults >= old(faults) && (ok <==> faults == old(faults))
      ensures old(p in disk) && ((quiet && reliable) || faultless) ==> ok
    {
      confirmed := false;
      var fault := Fails(quiet);
      if p !in disk && !fault {
        faults := faults + 1;
      }
      if fault || p !in disk {
        return false;
      }
      disk, looked := disk - {p}, map[];
      fault := Fails(quiet);
      ok := !fault;
    }

    /** restoreSnapshot, and the write of an installation or upgrade: replace, publish or unlink. */
    method Write(p: Path, f: Option<File>, quiet: bool) returns (ok: bool)
      modifies `disk, `manifest, `marker, `looked, `confirmed, `faults
      ensures calm || quiet ==> manifest == old(manifest) && marker == old(marker) && Written(old(disk), disk, p, f, ok)
      ensures !confirmed && (calm || quiet ==> disk == old(disk) || looked == map[])
      ensures faults >= old(faults) && (ok <==> faults == old(faults))
      ensures (quiet && reliable) || (calm && faultless) ==> ok
    {
      var readable, current := Read(p, quiet);
      if !readable {
        return false;
      }
      Interfere(quiet);
      if f.Some? && current.None? {
        ok := Publish(p, f.value, quiet);
      } else if f.Some? {
        ok := Replace(p, f.value, quiet);
      } else if current.Some? {
        ok := Unlink(p, quiet);
      } else {
        assert calm || quiet ==> Set(disk, p, f) == disk;
        ok := true;
      }
    }

    /** The manifest and marker are still those of the plan. */
    method Unchanged(expected: Option<nat>, mark: Option<nat>, quiet: bool) returns (ok: bool)
      modifies `disk, `manifest, `marker, `looked, `confirmed, `faults
      ensures calm || quiet ==> disk == old(disk) && manifest == old(manifest) && marker == old(marker)
      ensures looked == old(looked) && confirmed == ok
      ensures faults >= old(faults) && (ok ==> faults == old(faults))
      ensures ok ==> Owned(expected, mark)
      ensures ((quiet && reliable) || (calm && faultless)) && old(Owned(expected, mark)) ==> ok
      ensures (calm || quiet) && ok ==> old(Owned(expected, mark))
    {
      Interfere(quiet);
      var fault := Fails(quiet);
      ok := !fault && Owned(expected, mark);
      confirmed := ok;
    }

    /** An installation has no marker. */
    predicate Owned(expected: Option<nat>, mark: Option<nat>)
      reads `manifest, `marker
    {
      manifest == expected && (mark.Some? ==> marker == mark)
    }

    /** Every path was read, in its planned state, since the last write. */
    ghost predicate Seen(plan: seq<Entry>, after: bool)
      reads `looked
    {
      forall i | 0 <= i < |plan| :: plan[i].path in looked && looked[plan[i].path] == if after then plan[i].after else plan[i].before
    }

    method Verify(plan: seq<Entry>, after: bool, quiet: bool) returns (ok: bool)
      requires Paths(plan)
      modifies `disk, `manifest, `marker, `looked, `confirmed, `faults
      ensures faults >= old(faults) && (ok ==> faults == old(faults))
      ensures calm || quiet ==> disk == old(disk) && manifest == old(manifest) && marker == old(marker)
      ensures ok ==> Seen(plan, after)
      ensures (calm || quiet) && ok ==> if after then AllAfter(disk, plan) else AllBefore(disk, plan)
      ensures (quiet && reliable) || (calm && faultless) ==> (ok <==> if after then AllAfter(disk, plan) else AllBefore(disk, plan))
    {
      ok := true;
      var i := 0;
      while i < |plan|
        invariant faults >= old(faults) && (ok ==> faults == old(faults))
        invariant i <= |plan|
        invariant calm || quiet ==> disk == old(disk) && manifest == old(manifest) && marker == old(marker)
        invariant (calm || quiet) && ok ==> forall j | 0 <= j < i :: Get(disk, plan[j].path) == if after then plan[j].after else plan[j].before
        invariant ok ==> Seen(plan[..i], after)
        invariant ((quiet && reliable) || (calm && faultless)) && !ok ==> exists j | 0 <= j < i :: Get(disk, plan[j].path) != if after then plan[j].after else plan[j].before
      {
        var readable, current := Read(plan[i].path, quiet);
        if !readable || current != if after then plan[i].after else plan[i].before {
          ok := false;
        }
        i := i + 1;
      }
      assert plan[..i] == plan;
    }

    // -------------------------------------------------------------- writing the plan

    /** The writing loop over a part of the plan. Skip: a path that already has its planned state
        is left alone. Check: what was written is read back. */
    method WriteAll(plan: seq<Entry>, from: nat, to: nat, expected: Option<nat>, mark: Option<nat>, skip: bool,
                    check: bool) returns (ok: bool)
      requires Paths(plan) && from <= to <= |plan|
      modifies `disk, `manifest, `marker, `looked, `confirmed, `faults
      ensures faults >= old(faults) && (ok ==> faults == old(faults))
      ensures calm ==> manifest == old(manifest) && marker == old(marker) && SameElsewhere(old(disk), disk, plan)
      ensures calm && old(Safe(disk, plan, false)) ==> Safe(disk, plan, false)
      ensures calm && ok && old(AllAfter(disk, plan[..from])) ==> AllAfter(disk, plan[..to])
      ensures calm ==> OnlyWritten(old(disk), disk, plan) && (disk != old(disk) ==> old(Owned(expected, mark)))
      ensures calm ==> Untouched(old(disk), disk, plan, to)
      ensures calm && faultless && old(Owned(expected, mark)) && old(BeforeFrom(disk, plan, from)) ==> ok
    {
      ghost var start := disk;
      var i := from;
      while i < to
        invariant faults == old(faults)
        invariant from <= i <= to
        invariant calm ==> manifest == old(manifest) && marker == old(marker) && SameElsewhere(start, disk, plan)
        invariant calm && Safe(start, plan, false) ==> Safe(disk, plan, false)
        invariant calm && AllAfter(start, plan[..from]) ==> AllAfter(disk, plan[..i])
        invariant calm ==> OnlyWritten(start, disk, plan) && (disk != start ==> old(Owned(expected, mark)))
        invariant calm ==> Untouched(start, disk, plan, i)
      {
        ghost var was := disk;
        ok := WriteOne(plan[i], expected, mark, skip, check);
        if calm {
          WritesOne(start, was, disk, plan, i, ok);
          WriteKeeps(was, disk, plan, i, ok);
        }
        if !ok {
          return;
        }
        i := i + 1;
      }
      ok := true;
    }

    /** The path is written only from its planned state and under the manifest and marker of the plan. */
    method WriteOne(e: Entry, expected: Option<nat>, mark: Option<nat>, skip: bool, check: bool) returns (ok: bool)
      modifies `disk, `manifest, `marker, `looked, `confirmed, `faults
      ensures faults >= old(faults) && (ok ==> faults == old(faults))
      ensures calm ==> manifest == old(manifest) && marker == old(marker) && Written(old(disk), disk, e.path, e.after, ok)
      ensures calm && disk != old(disk) ==> old(Get(disk, e.path)) == e.before && old(Owned(expected, mark))
      ensures calm && ok ==> old(Owned(expected, mark))
      ensures calm && ok ==> old(Get(disk, e.path)) == e.before || (skip && old(Get(disk, e.path)) == e.after)
      ensures ok && (check || (skip && old(Get(disk, e.path)) == e.after && calm)) ==> e.path in looked && looked[e.path] == e.after
      ensures calm && faultless && old(Owned(expected, mark)) && old(Get(disk, e.path)) == e.before ==> ok
    {
      ok := Unchanged(expected, mark, false);
      if !ok {
        return;
      }
      var readable, current := Read(e.path, false);
      if !readable {
        return false;
      }
      if skip && current == e.after {
        assert calm ==> Set(disk, e.path, e.after) == disk;
        return true;
      }
      if current != e.before {
        return false;
      }
      ok := Write(e.path, e.after, false);
      if ok && check {
        readable, current := Read(e.path, false);
        ok := readable && current == e.after;
      }
    }

    // -------------------------------------------------------------- rollback

    method CheckSafe(plan: seq<Entry>, absentToo: bool) returns (ok: bool)
      modifies `disk, `manifest, `marker, `looked, `confirmed, `faults
      ensures faults >= old(faults) && (ok ==> faults == old(faults))
      ensures disk == old(disk) && manifest == old(manifest) && marker == old(marker)
      ensures ok ==> Safe(disk, plan, absentToo)
      ensures reliable && Safe(disk, plan, absentToo) ==> ok
    {
      var i := 0;
      while i < |plan|
        invariant faults == old(faults)
        invariant i <= |plan| && disk == old(disk) && manifest == old(manifest) && marker == old(marker)
        invariant Safe(disk, plan[..i], absentToo)
      {
        var readable, current := Read(plan[i].path, true);
        if !readable || !(current in {plan[i].before, plan[i].after} || (absentToo && current == None)) {
          return false;
        }
        assert plan[..i + 1] == plan[..i] + [plan[i]];
        i := i + 1;
      }
      assert plan[..i] == plan;
      ok := true;
    }

    method RestoreAll(plan: seq<Entry>) returns (ok: bool)
      requires Paths(plan)
      modifies `disk, `manifest, `marker, `looked, `confirmed, `faults
      ensures faults >= old(faults) && (ok ==> faults == old(faults))
      ensures manifest == old(manifest) && marker == old(marker)
      ensures OnlyRestored(old(disk), disk, plan)
      ensures reliable ==> ok
      ensures ok ==> AllBefore(disk, plan)
    {
      ghost var start := disk;
      var i := 0;
      while i < |plan|
        invariant faults == old(faults)
        invariant i <= |plan| && manifest == old(manifest) && marker == old(marker)
        invariant OnlyRestored(start, disk, plan) && AllBefore(disk, plan[..i])
      {
        ghost var was := disk;
        ok := Write(plan[i].path, plan[i].before, true);
        RestoreKeeps(start, was, disk, plan, i, ok);
        if !ok {
          return;
        }
        i := i + 1;
      }
      assert plan[..i] == plan;
      ok := true;
    }

    /** The rollback of an upgrade or uninstallation. */
    method Rollback(plan: seq<Entry>, expected: nat, mark: nat, historyPublished: bool) returns (ok: bool)
      requires Paths(plan)
      modifies `disk, `manifest, `marker, `looked, `confirmed, `faults
      ensures faults >= old(faults) && (ok ==> faults == old(faults))
      ensures manifest == old(manifest) && OnlyOverwrites(old(disk), disk, plan, false)
      ensures ok ==> Seen(plan, false)
      ensures ok ==> AllBefore(disk, plan) && manifest == Some(expected)
      ensures ok ==> marker == None
      ensures old(manifest) != Some(expected) ==> !ok && disk == old(disk)
      ensures reliable && old(manifest) == Some(expected) && old(marker) == Some(mark) && old(Safe(disk, plan, false)) ==> ok
    {
      ok := Unchanged(Some(expected), Some(mark), true);
      if ok {
        ok := CheckSafe(plan, false);
        if ok {
          ghost var start := disk;
          ok := RestoreAll(plan);
          RestoredOverwrites(start, disk, plan, false);
          if ok {
            ok := Verify(plan, false, true);
          }
        }
      }
      if ok && historyPublished {
        var fault := Fails(true);
        ok := !fault;
      }
      if ok {
        var fault := Fails(true);
        ok := !fault;
        if ok {
          marker := None;
        }
      }
    }

    /** The rollback of a prepared installation also accepts that a path is gone. */
    method RollbackPrepared(plan: seq<Entry>, prepared: nat) returns (ok: bool)
      requires Paths(plan)
      modifies `disk, `manifest, `marker, `looked, `confirmed, `faults
      ensures faults >= old(faults) && (ok ==> faults == old(faults))
      ensures marker == old(marker) && OnlyOverwrites(old(disk), disk, plan, true)
      ensures manifest == if ok then None else old(manifest)
      ensures ok ==> Seen(plan, false)
      ensures ok ==> AllBefore(disk, plan)
      ensures old(manifest) != Some(prepared) ==> !ok && disk == old(disk)
      ensures reliable && old(manifest) == Some(prepared) && old(Safe(disk, plan, true)) ==> ok
    {
      ok := Unchanged(Some(prepared), None, true);
      if ok {
        ok := CheckSafe(plan, true);
        if ok {
          ghost var start := disk;
          ok := RestoreAll(plan);
          RestoredOverwrites(start, disk, plan, true);
          if ok {
            ok := Verify(plan, false, true);
          }
        }
      }
      if ok {
        var fault := Fails(true);
        ok := !fault;
        if ok {
          manifest := None;
        }
      }
    }

    // -------------------------------------------------------------- the transactions

    /** The caller's own verification: what was read before it no longer counts. */
    method CallerVerifies() returns (ok: bool)
      modifies `disk, `manifest, `marker, `looked, `confirmed, `faults, `verifications
      ensures calm ==> disk == old(disk) && manifest == old(manifest) && marker == old(marker)
      ensures looked == map[] && !confirmed
      ensures faults >= old(faults) && (ok <==> faults == old(faults))
      ensures verifications == old(verifications) + 1
      ensures faultless ==> ok
    {
      Interfere(false);
      var fault := Fails(false);
      looked, confirmed, verifications := map[], false, verifications + 1;
      ok := !fault;
    }

    /** The caller's verification between two checks of the planned state. */
    method VerifyPlanned(plan: seq<Entry>) returns (ok: bool)
      requires Paths(plan)
      modifies `disk, `manifest, `marker, `looked, `confirmed, `faults, `verifications
      ensures faults >= old(faults) && (ok ==> faults == old(faults))
      ensures calm ==> disk == old(disk) && manifest == old(manifest) && marker == old(marker)
      ensures ok ==> verifications == old(verifications) + 1
      ensures ok ==> Seen(plan, true)
      ensures calm && ok ==> AllAfter(disk, plan)
      ensures calm && faultless && old(AllAfter(disk, plan)) ==> ok
    {
      ok := Verify(plan, true, false);
      if ok {
        ok := CallerVerifies();
        if ok {
          ok := Verify(plan, true, false);
        }
      }
    }

    /** The single write that commits: it may also fail after it took effect. */
    method Commit(next: Option<nat>) returns (ok: bool)
      modifies `manifest, `faults
      ensures faults >= old(faults) && (ok <==> faults == old(faults))
      ensures ok ==> manifest == next
      ensures faultless ==> ok
      ensures manifest in {old(manifest), next}
    {
      var fault := Fails(false);
      if fault {
        return false;
      }
      manifest := next;
      fault := Fails(false);
      ok := !fault;
    }

    /** desired are written and read back; removed get their state from before the installation. */
    method Upgrade(desired: seq<Entry>, removed: seq<Entry>, was: nat, next: nat, mark: nat) returns (r: Outcome)
      requires Paths(desired + removed) && was != next
      modifies `disk, `manifest, `marker, `looked, `confirmed, `faults, `verifications
      ensures r == RolledBack ==> AllBefore(disk, desired + removed) && manifest == Some(was)
      ensures r == Committed ==> faults == old(faults) && verifications == old(verifications) + 1
      ensures calm ==> SameElsewhere(old(disk), disk, desired + removed)
      ensures r == Committed ==> Seen(desired + removed, true) && confirmed && manifest == Some(next)
      ensures calm && r == Committed ==> AllAfter(disk, desired + removed)
      ensures calm && r == Committed ==> old(AllBefore(disk, desired + removed) && Owned(Some(was), Some(mark)))
      ensures calm && faultless && old(AllBefore(disk, desired + removed) && Owned(Some(was), Some(mark))) ==> r == Committed
      ensures calm && reliable && old(manifest) == Some(was) && old(marker) == Some(mark) && old(Safe(disk, desired + removed, false)) ==>
                r != RollbackFailed || (AllAfter(disk, desired + removed) && manifest == Some(next))
    {
      hide AllBefore, AllAfter, Safe, OnlyOverwrites, OnlyWritten, Mentions, Seen;
      var plan, expected, marked := desired + removed, Some(was), Some(mark);
      StartsSafe(disk, plan, |plan|);
      var historyPublished := false;
      var ok := Unchanged(expected, marked, false);
      if ok {
        ok := Verify(plan, false, false);
      }
      if ok {
        ok := WriteAll(plan, 0, |desired|, expected, marked, true, true);
      }
      if ok {
        ok := WriteAll(plan, |desired|, |plan|, expected, marked, false, false);
        assert plan[..|plan|] == plan;
      }
      if ok {
        ok := VerifyPlanned(plan);
      }
      if ok {
        ok := Unchanged(expected, marked, false);
      }
      if ok {
        var fault := Fails(false);
        historyPublished := !fault;
        ok := historyPublished;
      }
      if ok {
        ok := Commit(Some(next));
      }
      if ok {
        return Committed;
      }
      ghost var failed := disk;
      var done := Rollback(plan, was, mark, historyPublished);
      OverwritesWithin(failed, disk, plan, false);
      r := if done then RolledBack else RollbackFailed;
    }

    /** The first n entries need an action; the others are already clean, or retained. */
    method Uninstall(plan: seq<Entry>, n: nat, was: nat, mark: nat) returns (r: Outcome)
      requires Paths(plan) && n <= |plan| && forall i | n <= i < |plan| :: plan[i].before == plan[i].after
      modifies `disk, `manifest, `marker, `looked, `confirmed, `faults, `verifications
      ensures r == RolledBack ==> AllBefore(disk, plan[..n]) && manifest == Some(was)
      ensures r == Committed ==> faults == old(faults) && verifications == old(verifications) + 1
      ensures calm ==> SameElsewhere(old(disk), disk, plan)
      ensures r == Committed ==> Seen(plan, true) && confirmed && manifest == None
      ensures calm && r == Committed ==> AllAfter(disk, plan)
      ensures calm && r == Committed ==> old(AllBefore(disk, plan) && Owned(Some(was), Some(mark)))
      ensures calm && faultless && old(AllBefore(disk, plan) && Owned(Some(was), Some(mark))) ==> r == Committed
      ensures calm && r == RolledBack && old(AllBefore(disk, plan)) ==> AllBefore(disk, plan)
      ensures calm && reliable && old(manifest) == Some(was) && old(marker) == Some(mark) && old(Safe(disk, plan, false)) ==>
                r != RollbackFailed || (AllAfter(disk, plan) && manifest == None)
    {
      hide AllBefore, AllAfter, Safe, SameElsewhere, OnlyOverwrites, OnlyWritten, Mentions, BeforeFrom, Untouched;
      StartsSafe(disk, plan, n);
      var actions, expected, marked := plan[..n], Some(was), Some(mark);
      var historyPublished := false;
      var ok := Unchanged(expected, marked, false);
      if ok {
        ok := Verify(plan, false, false);
      }
      if ok {
        ok := WriteAll(plan, 0, n, expected, marked, false, true);
        if calm {
          WholePlan(old(disk), disk, plan, n);
        }
      }
      if ok {
        ok := VerifyPlanned(plan);
      }
      if ok {
        ok := Unchanged(expected, marked, false);
      }
      if ok {
        var fault := Fails(false);
        historyPublished := !fault;
        ok := historyPublished;
      }
      if ok {
        ok := Commit(None);
      }
      if ok {
        return Committed;
      }
      ghost var failed := disk;
      SafePart(failed, plan, n);
      var done := Rollback(actions, was, mark, historyPublished);
      OverwritesPart(failed, disk, plan, n);
      BackTogether(old(disk), failed, disk, plan, n);
      r := if done then RolledBack else RollbackFailed;
    }

    /** The manifest is published as prepared before the first managed file is written, and as
        installed afterwards. A failure that is reported after that point cannot be rolled back. */
    method Install(plan: seq<Entry>, prepared: nat, installed: nat) returns (r: Outcome)
      requires Paths(plan) && prepared != installed
      modifies `disk, `manifest, `marker, `looked, `confirmed, `faults, `verifications
      ensures r == RolledBack ==> AllBefore(disk, plan) && manifest == None
      ensures r == Committed ==> faults == old(faults) && verifications == old(verifications) + 1
      ensures calm ==> SameElsewhere(old(disk), disk, plan)
      ensures r == Committed ==> Seen(plan, true) && confirmed && manifest == Some(installed)
      ensures calm && r == Committed ==> AllAfter(disk, plan)
      ensures calm && r == Committed ==> old(AllBefore(disk, plan) && Owned(Some(prepared), None))
      ensures calm && faultless && old(AllBefore(disk, plan) && Owned(Some(prepared), None)) ==> r == Committed
      ensures calm && reliable && old(manifest) == Some(prepared) && old(Safe(disk, plan, false)) ==>
                r != RollbackFailed || (AllAfter(disk, plan) && manifest == Some(installed))
    {
      var expected := Some(prepared);
      var ok := Unchanged(expected, None, false);
      if ok {
        ok := Verify(plan, false, false);
      }
      if ok {
        ok := WriteAll(plan, 0, |plan|, expected, None, true, true);
      }
      if ok {
        ok := CallerVerifies();
      }
      if ok {
        ok := Verify(plan, true, false);
      }
      if ok {
        ok := Unchanged(expected, None, false);
      }
      if ok {
        ok := Commit(Some(installed));
      }
      if ok {
        return Committed;
      }
      ghost var failed := disk;
      var done := RollbackPrepared(plan, prepared);
      OverwritesWithin(failed, disk, plan, true);
      r := if done then RolledBack else RollbackFailed;
    }
  }
}

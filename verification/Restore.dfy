/** Restoring an installation from its snapshot. The process may die before any single change to
    the file system, a file may be cut at any length, and the next run starts from what is there. */
module Restore {
  import opened Options

  type Name = nat
  type Path = seq<Name>
  type Byte = nat
  datatype Node = File(bytes: seq<Byte>, mode: nat) | Dir(mode: nat) | Link(target: Path)
  type Tree = map<Path, Node>

  datatype Progress = Sealed | Restoring | Restored
  datatype Outcome = Rejected | Died | Done

  /** A single change; the process may die right before it. */
  datatype Op =
    | Intend | Rmdir(path: Path) | Unlink(path: Path) | Mkdir(path: Path) | Chmod(path: Path)
    | Symlink(path: Path) | Create(path: Path) | Append(path: Path, at: nat) | Finish

  function Get(t: Tree, p: Path): Option<Node> {
    if p in t then Some(t[p]) else None
  }

  predicate IsDir(t: Tree, p: Path) {
    p in t && t[p].Dir?
  }

  predicate ParentReady(roots: set<Path>, t: Tree, p: Path) {
    p in roots || (p != [] && IsDir(t, p[..|p| - 1]))
  }

  /** Below the registered roots, everything lies in a directory. */
  ghost predicate WellFormed(roots: set<Path>, t: Tree) {
    forall p | p in t :: ParentReady(roots, t, p)
  }

  predicate InDirectory(roots: set<Path>, q: Path, p: Path) {
    q !in roots && q != [] && q[..|q| - 1] == p
  }

  predicate Empty(roots: set<Path>, t: Tree, p: Path) {
    forall q | q in t :: !InDirectory(roots, q, p)
  }

  /** A listing of some paths, each once, in an order in which depths do not increase (or, the
      other way round, do not decrease). */
  ghost predicate Lists(order: seq<Path>, paths: set<Path>) {
    && (forall i | 0 <= i < |order| :: order[i] in paths)
    && (forall p | p in paths :: p in order)
    && (forall i, j | 0 <= i < j < |order| :: order[i] != order[j])
  }

  ghost predicate DeepestFirst(order: seq<Path>) {
    forall i, j | 0 <= i < j < |order| :: |order[i]| >= |order[j]|
  }

  ghost predicate ShallowestFirst(order: seq<Path>) {
    forall i, j | 0 <= i < j < |order| :: |order[i]| <= |order[j]|
  }

  predicate NoDeeper(rest: set<Path>, p: Path) {
    forall q | q in rest :: |q| <= |p|
  }

  lemma {:induction false} DeepestExists(paths: set<Path>)
    requires paths != {}
    ensures exists p :: p in paths && NoDeeper(paths, p)
  {
    var p :| p in paths;
    if paths != {p} {
      var rest := paths - {p};
      assert rest != {};
      DeepestExists(rest);
      var q :| q in rest && NoDeeper(rest, q);
      var deepest := if |p| >= |q| then p else q;
      assert forall r | r in paths :: r == p || r in rest;
      assert deepest in paths && NoDeeper(paths, deepest);
    }
  }

  /** The paths taken out so far, each no shallower than those taken later and those still there. */
  ghost predicate Sorting(order: seq<Path>, rest: set<Path>, paths: set<Path>) {
    && rest <= paths && (forall p | p in paths :: p in rest || p in order)
    && (forall i | 0 <= i < |order| :: order[i] in paths - rest && NoDeeper(rest, order[i]))
    && DeepestFirst(order) && forall i, j | 0 <= i < j < |order| :: order[i] != order[j]
  }

  lemma SortNext(order: seq<Path>, rest: set<Path>, paths: set<Path>, p: Path)
    requires Sorting(order, rest, paths) && p in rest && NoDeeper(rest, p)
    ensures Sorting(order + [p], rest - {p}, paths)
  {
    hide DeepestFirst;
    var next := order + [p];
    forall q | q in paths
      ensures q in rest - {p} || q in next
    {
      if q in order {
        var i :| 0 <= i < |order| && order[i] == q;
        assert next[i] == q;
      } else if q == p {
        assert next[|order|] == q;
      }
    }
    forall i | 0 <= i < |order|
      ensures order[i] in paths - (rest - {p}) && NoDeeper(rest - {p}, order[i]) && order[i] != p && |p| <= |order[i]|
    {
      assert order[i] in paths - rest && NoDeeper(rest, order[i]);
    }
    SortedNext(order, p);
  }

  lemma SortedNext(order: seq<Path>, p: Path)
    requires DeepestFirst(order) && forall i, j | 0 <= i < j < |order| :: order[i] != order[j]
    requires forall i | 0 <= i < |order| :: order[i] != p && |p| <= |order[i]|
    ensures DeepestFirst(order + [p])
    ensures var next := order + [p]; forall i, j | 0 <= i < j < |next| :: next[i] != next[j]
  {
  }

  method SortByDepth(paths: set<Path>) returns (order: seq<Path>)
    ensures Lists(order, paths) && DeepestFirst(order)
  {
    hide DeepestFirst, NoDeeper;
    order := [];
    var rest := paths;
    Unsorted(paths);
    while rest != {}
      invariant Sorting(order, rest, paths)
      decreases rest
    {
      DeepestExists(rest);
      var p :| p in rest && NoDeeper(rest, p);
      SortNext(order, rest, paths, p);
      order, rest := order + [p], rest - {p};
    }
  }

  lemma Unsorted(paths: set<Path>)
    ensures Sorting([], paths, paths)
  {
  }

  method Reverse(order: seq<Path>, ghost paths: set<Path>) returns (r: seq<Path>)
    requires Lists(order, paths) && DeepestFirst(order)
    ensures Lists(r, paths) && ShallowestFirst(r)
  {
    hide DeepestFirst, ShallowestFirst;
    r := seq(|order|, i requires 0 <= i < |order| => order[|order| - 1 - i]);
    ReversedLists(order, r, paths);
    ReversedShallowest(order, r);
  }

  predicate ReverseOf(r: seq<Path>, order: seq<Path>) {
    |r| == |order| && forall i | 0 <= i < |r| :: r[i] == order[|order| - 1 - i]
  }

  lemma ReversedLists(order: seq<Path>, r: seq<Path>, paths: set<Path>)
    requires ReverseOf(r, order) && Lists(order, paths)
    ensures Lists(r, paths)
  {
    forall p | p in paths
      ensures p in r
    {
      var i :| 0 <= i < |order| && order[i] == p;
      assert r[|order| - 1 - i] == p;
    }
  }

  lemma ReversedShallowest(order: seq<Path>, r: seq<Path>)
    requires ReverseOf(r, order) && DeepestFirst(order)
    ensures ShallowestFirst(r)
  {
  }

  lemma NotYet(order: seq<Path>, paths: set<Path>, i: nat)
    requires Lists(order, paths) && i < |order|
    ensures order[i] !in order[..i] && order[..i + 1] == order[..i] + [order[i]] && order[i] in paths
  {
  }

  class Restorer {
    const roots: set<Path>
    const before: Tree
    const after: Tree
    /** The mode mkdir gives under the umask of the process. */
    const mkdirMode: nat
    var fs: Tree
    var state: Progress
    var pending: set<Path>

    ghost predicate Valid()
      reads this
    {
      WellFormed(roots, before) && WellFormed(roots, after) && WellFormed(roots, fs)
    }

    constructor (roots: set<Path>, before: Tree, after: Tree, mkdirMode: nat)
      requires WellFormed(roots, before) && WellFormed(roots, after)
      ensures Valid() && fs == after && state == Sealed
      ensures this.roots == roots && this.before == before && this.after == after && this.mkdirMode == mkdirMode
    {
      this.roots, this.before, this.after, this.mkdirMode := roots, before, after, mkdirMode;
      fs, state, pending := after, Sealed, {};
    }

    // -------------------------------------------------------------- the preflight

    /** What an earlier run can have left of a pending path. */
    predicate Interrupted(pending: set<Path>, t: Tree, p: Path) {
      p in pending &&
      (p !in t || (t[p].File? && p in before && before[p].File? && t[p].bytes <= before[p].bytes))
    }

    predicate Explained(t: Tree, p: Path)
      reads `pending, `state
    {
      Get(t, p) == Get(before, p) || Get(t, p) == Get(after, p) || (state == Restoring && Interrupted(pending, t, p))
    }

    ghost predicate Passes()
      reads this
    {
      (forall p :: Explained(fs, p)) && (state == Restored ==> fs == before)
    }

    /** What no run undoes: a path that still differs is pending, and a directory on both sides of
        the switch stays a directory. */
    ghost predicate Untouched()
      reads this
    {
      state == Restoring ==>
        && (forall p | Get(fs, p) != Get(before, p) :: p in pending)
        && (forall p | IsDir(before, p) && IsDir(after, p) :: IsDir(fs, p))
    }

    /** Every directory the restoration has to make gets its final mode from mkdir already. */
    ghost predicate ModesAgree() {
      forall p | IsDir(before, p) && !IsDir(after, p) :: before[p].mode == mkdirMode
    }

    // -------------------------------------------------------------- single changes

    method DoRmdir(p: Path)
      requires Valid() && IsDir(fs, p) && Empty(roots, fs, p)
      modifies `fs
      ensures Valid() && fs == old(fs) - {p}
    {
      fs := fs - {p};
    }

    method DoUnlink(p: Path)
      requires Valid() && p in fs && !fs[p].Dir?
      modifies `fs
      ensures Valid() && fs == old(fs) - {p}
    {
      fs := fs - {p};
    }

    method DoMake(p: Path, node: Node)
      requires Valid() && p !in fs && ParentReady(roots, fs, p)
      modifies `fs
      ensures Valid() && fs == old(fs)[p := node]
    {
      fs := fs[p := node];
    }

    method DoChange(p: Path, node: Node)
      requires Valid() && p in fs && (fs[p].Dir? <==> node.Dir?)
      modifies `fs
      ensures Valid() && fs == old(fs)[p := node]
    {
      fs := fs[p := node];
    }

    // -------------------------------------------------------------- deletion

    /** Present, different, and not a directory that stays one. */
    predicate Doomed(t: Tree, p: Path) {
      p in t && Get(t, p) != Get(before, p) && !(IsDir(t, p) && IsDir(before, p))
    }

    /** The tree after the doomed paths among some are gone. */
    ghost predicate Trimmed(current: Tree, gone: seq<Path>)
      reads `fs
    {
      forall p :: Get(fs, p) == if p in gone && Doomed(current, p) then None else Get(current, p)
    }

    method DeleteAll(order: seq<Path>, stop: Option<Op>) returns (alive: bool)
      requires Valid() && DeepestFirst(order) && Lists(order, fs.Keys + before.Keys + after.Keys)
      modifies `fs
      ensures Valid()
      ensures alive ==> Trimmed(old(fs), order)
      ensures !alive ==> stop.Some? && (stop.value.Rmdir? || stop.value.Unlink?)
      ensures Between(old(fs))
    {
      hide Lists, DeepestFirst, WellFormed, Empty, Between;
      ghost var current := fs;
      var snapshot := fs;
      var i := 0;
      while i < |order|
        invariant i <= |order| && Valid() && Trimmed(current, order[..i])
      {
        var p := order[i];
        NotYet(order, current.Keys + before.Keys + after.Keys, i);
        if Doomed(snapshot, p) {
          assert Get(fs, p) == Get(current, p);
          if snapshot[p].Dir? {
            if stop == Some(Rmdir(p)) {
              TrimmedBetween(current, order[..i]);
              return false;
            }
            EmptyByNow(current, order, i);
            DoRmdir(p);
          } else {
            if stop == Some(Unlink(p)) {
              TrimmedBetween(current, order[..i]);
              return false;
            }
            DoUnlink(p);
          }
        }
        i := i + 1;
      }
      assert order[..i] == order;
      TrimmedBetween(current, order);
      alive := true;
    }

    lemma TrimmedBetween(current: Tree, gone: seq<Path>)
      requires Trimmed(current, gone)
      ensures Between(current)
    {
    }

    /** Deepest first: when the turn comes to a directory, all that was in it is gone. */
    lemma EmptyByNow(current: Tree, order: seq<Path>, i: nat)
      requires WellFormed(roots, before) && WellFormed(roots, current) && i < |order|
      requires DeepestFirst(order) && Lists(order, current.Keys + before.Keys + after.Keys)
      requires Trimmed(current, order[..i]) && Doomed(current, order[i]) && IsDir(current, order[i])
      ensures Empty(roots, fs, order[i])
    {
      forall q | InDirectory(roots, q, order[i])
        ensures q !in fs
      {
        assert Get(fs, q) == if q in order[..i] && Doomed(current, q) then None else Get(current, q);
        if q in current {
          ChildBefore(current, order, i, q);
        }
      }
    }

    lemma ChildBefore(current: Tree, order: seq<Path>, i: nat, q: Path)
      requires WellFormed(roots, before) && WellFormed(roots, current) && i < |order|
      requires DeepestFirst(order) && Lists(order, current.Keys + before.Keys + after.Keys)
      requires Doomed(current, order[i]) && IsDir(current, order[i]) && q in current && InDirectory(roots, q, order[i])
      ensures q in order[..i] && Doomed(current, q)
    {
    }

    // -------------------------------------------------------------- creation

    predicate Differs(current: Tree, p: Path) {
      Get(current, p) != Get(before, p) && !(IsDir(current, p) && IsDir(before, p))
    }

    /** The tree after the doomed paths are gone and the first originals are back. */
    ghost predicate Rebuilt(current: Tree, back: seq<Path>)
      reads `fs
    {
      forall p :: Get(fs, p) ==
        if p in back && p in before then Some(before[p]) else if Doomed(current, p) then None else Get(current, p)
    }

    /** What a death at any point leaves of a run that started from this tree. */
    ghost predicate Between(current: Tree)
      reads `fs
    {
      forall p :: HalfWay(current, p)
    }

    predicate HalfWay(current: Tree, p: Path)
      reads `fs
    {
      || Get(fs, p) == Get(before, p) || Get(fs, p) == Get(current, p)
      || (Differs(current, p) && (p !in fs || (p in before && Begun(fs[p], before[p]))))
    }

    predicate Begun(node: Node, original: Node) {
      match original
      case Dir(_) => node == Dir(mkdirMode)
      case File(bytes, _) => node.File? && node.bytes <= bytes
      case Link(_) => false
    }

    method RestoreDir(p: Path, stop: Option<Op>) returns (alive: bool)
      requires Valid() && IsDir(before, p) && (if p in fs then fs[p].Dir? else ParentReady(roots, fs, p))
      modifies `fs
      ensures Valid()
      ensures alive ==> fs == old(fs)[p := before[p]]
      ensures !alive ==> fs == old(fs) || (p !in old(fs) && fs == old(fs)[p := Dir(mkdirMode)])
      ensures stop == Some(Chmod(p)) ==> !alive && (p !in old(fs) ==> fs == old(fs)[p := Dir(mkdirMode)])
      ensures !alive ==> stop in {Some(Mkdir(p)), Some(Chmod(p))}
    {
      if p !in fs {
        if stop == Some(Mkdir(p)) {
          return false;
        }
        DoMake(p, Dir(mkdirMode));
      }
      if stop == Some(Chmod(p)) {
        return false;
      }
      DoChange(p, before[p]);
      alive := true;
    }

    method RestoreFile(p: Path, stop: Option<Op>) returns (alive: bool)
      requires Valid() && p in before && before[p].File? && p !in fs && ParentReady(roots, fs, p)
      modifies `fs
      ensures Valid()
      ensures alive ==> fs == old(fs)[p := before[p]]
      ensures !alive ==> fs == old(fs) || (p in fs && fs == old(fs)[p := fs[p]] && fs[p].File? && fs[p].bytes <= before[p].bytes)
      ensures !alive ==> stop in {Some(Create(p)), Some(Chmod(p))} || (stop.Some? && stop.value.Append? && stop.value.path == p)
    {
      hide Valid;
      if stop == Some(Create(p)) {
        return false;
      }
      var masked: nat := *;
      DoMake(p, File([], masked));
      var bytes, k := before[p].bytes, 0;
      while k < |bytes|
        invariant k <= |bytes| && Valid() && fs == old(fs)[p := File(bytes[..k], masked)]
      {
        if stop == Some(Append(p, k)) {
          return false;
        }
        assert bytes[..k + 1] == bytes[..k] + [bytes[k]];
        DoChange(p, File(bytes[..k] + [bytes[k]], masked));
        k := k + 1;
      }
      assert bytes[..k] == bytes;
      if stop == Some(Chmod(p)) {
        return false;
      }
      DoChange(p, before[p]);
      alive := true;
    }

    /** Shallowest first: the directory of an original is back before the original. */
    lemma ReadyByNow(current: Tree, order: seq<Path>, j: nat)
      requires WellFormed(roots, before) && j < |order| && ShallowestFirst(order) && Lists(order, before.Keys)
      requires Rebuilt(current, order[..j])
      ensures ParentReady(roots, fs, order[j])
    {
    }

    method RestoreOne(current: Tree, p: Path, stop: Option<Op>) returns (alive: bool)
      requires Valid() && p in before && ParentReady(roots, fs, p)
      requires Get(fs, p) == if Doomed(current, p) then None else Get(current, p)
      modifies `fs
      ensures Valid()
      ensures forall q | q != p :: Get(fs, q) == old(Get(fs, q))
      ensures if alive then Get(fs, p) == Some(before[p]) else HalfWay(current, p)
      ensures stop == Some(Chmod(p)) && IsDir(before, p) ==> !alive && (!IsDir(current, p) ==> Get(fs, p) == Some(Dir(mkdirMode)))
      ensures !alive ==> stop.Some? && stop.value !in {Intend, Finish} && stop.value.path == p
    {
      match before[p]
      case Dir(_) => alive := RestoreDir(p, stop);
      case File(_, _) =>
        alive := true;
        if Get(current, p) != Get(before, p) {
          alive := RestoreFile(p, stop);
        }
      case Link(_) =>
        alive := true;
        if Get(current, p) != Get(before, p) {
          if stop == Some(Symlink(p)) {
            return false;
          }
          DoMake(p, before[p]);
        }
    }

    method CreateAll(current: Tree, order: seq<Path>, stop: Option<Op>) returns (alive: bool)
      requires Valid() && ShallowestFirst(order) && Lists(order, before.Keys) && Rebuilt(current, [])
      modifies `fs
      ensures Valid()
      ensures alive ==> fs == before
      ensures Between(current)
      ensures forall p | stop == Some(Chmod(p)) && IsDir(before, p) ::
                !alive && (!IsDir(current, p) ==> Get(fs, p) == Some(Dir(mkdirMode)))
      ensures !alive ==> stop.Some?
    {
      hide Lists, ShallowestFirst, WellFormed, ParentReady, IsDir, Begun;
      var j := 0;
      assert order[..0] == [];
      while j < |order|
        invariant j <= |order| && Valid() && Rebuilt(current, order[..j])
        invariant forall i | 0 <= i < j && IsDir(before, order[i]) :: stop != Some(Chmod(order[i]))
      {
        var p := order[j];
        ReadyByNow(current, order, j);
        NotYet(order, before.Keys, j);
        alive := RestoreOne(current, p, stop);
        if !alive {
          return;
        }
        j := j + 1;
      }
      assert order[..j] == order;
      alive := true;
      RebuiltAll(current, order);
    }

    lemma RebuiltAll(current: Tree, order: seq<Path>)
      requires Rebuilt(current, order) && Lists(order, before.Keys)
      ensures fs == before && Between(current)
      ensures forall p | IsDir(before, p) :: p in order
    {
    }

    // -------------------------------------------------------------- the whole run

    /** Whatever the run left, the next preflight explains it, provided that every directory mode
        is final when mkdir returns. */
    lemma StaysExplained(current: Tree, was: Progress, announced: set<Path>)
      requires Between(current) && ModesAgree() && state == Restoring
      requires forall p :: Get(current, p) == Get(before, p) || Get(current, p) == Get(after, p) || (was == Restoring && Interrupted(announced, current, p))
      requires if was == Restoring then pending == announced else forall p :: p in pending <==> Get(current, p) != Get(before, p)
      requires was == Restoring ==>
                 && (forall p | Get(current, p) != Get(before, p) :: p in announced)
                 && (forall p | IsDir(before, p) && IsDir(after, p) :: IsDir(current, p))
      ensures Untouched() && forall p :: Explained(fs, p)
    {
      forall p
        ensures Explained(fs, p)
        ensures Get(fs, p) != Get(before, p) ==> p in pending
        ensures IsDir(before, p) && IsDir(after, p) ==> IsDir(fs, p)
      {
        assert HalfWay(current, p);
      }
    }

    /** The intent that is made durable before the first change names exactly the paths that differ. */
    ghost predicate PendingSince(start: Tree)
      reads `pending
    {
      forall p :: p in pending <==> Get(start, p) != Get(before, p)
    }

    /** One run, which may die right before any change. It is rejected before its first change
        exactly when some path is unexplained. Otherwise it ends with the original tree, unless it
        dies; and if every mode agrees, the next run is not rejected for what this one left. */
    method Run(stop: Option<Op>) returns (r: Outcome)
      requires Valid()
      modifies `fs, `state, `pending
      ensures Valid()
      ensures r == Rejected <==> !old(Passes())
      ensures r == Rejected ==> fs == old(fs) && state == old(state) && pending == old(pending)
      ensures r == Done ==> fs == before && state == Restored
      ensures r == Died ==> (state == Restoring && (old(state) == Sealed ==> PendingSince(old(fs)))) || (fs == old(fs) && state == old(state))
      ensures old(state) != Sealed || state == Sealed ==> pending == old(pending)
      ensures stop == None ==> r != Died
      ensures r != Rejected && ModesAgree() && old(Untouched()) ==> Passes() && Untouched()
      ensures r != Rejected && old(state) != Restored ==> forall p | stop == Some(Chmod(p)) && IsDir(before, p) ::
                r == Died && (!IsDir(old(fs), p) ==> Get(fs, p) == Some(Dir(mkdirMode)))
    {
      hide WellFormed, Between;
      var ok := Preflight();
      if !ok {
        return Rejected;
      }
      if state == Restored {
        return Done;
      }
      if stop == Some(Intend) {
        return Died;
      }
      ghost var current, was, announced := fs, state, pending;
      ghost var untouched := Untouched();
      forall p
        ensures Get(current, p) == Get(before, p) || Get(current, p) == Get(after, p) || (was == Restoring && Interrupted(announced, current, p))
      {
        assert Explained(fs, p);
      }
      IntendRestore();
      var alive := Change(stop);
      if ModesAgree() && untouched {
        StaysExplained(current, was, announced);
      }
      if !alive || stop == Some(Finish) {
        return Died;
      }
      state := Restored;
      r := Done;
    }

    /** Every path is inspected before the first change. */
    method Preflight() returns (ok: bool)
      requires Valid()
      ensures ok <==> Passes()
      ensures ok ==> forall p :: Explained(fs, p)
    {
      ok := !exists p | p in fs.Keys + before.Keys + after.Keys :: !Explained(fs, p);
      if ok {
        forall p
          ensures Explained(fs, p)
        {
          assert p !in fs.Keys + before.Keys + after.Keys ==> Get(fs, p) == Get(before, p);
        }
        ok := state == Restored ==> fs == before;
      }
    }

    /** The durable intent. */
    method IntendRestore()
      modifies `state, `pending
      ensures state == Restoring
      ensures if old(state) == Sealed then PendingSince(fs) else pending == old(pending)
    {
      if state == Sealed {
        pending := set p | p in fs.Keys + before.Keys + after.Keys && Get(fs, p) != Get(before, p);
      }
      state := Restoring;
    }

    /** Delete deepest first, then create shallowest first. */
    method Change(stop: Option<Op>) returns (alive: bool)
      requires Valid()
      modifies `fs
      ensures Valid() && Between(old(fs))
      ensures alive ==> fs == before
      ensures !alive ==> stop.Some?
      ensures forall p | stop == Some(Chmod(p)) && IsDir(before, p) ::
                !alive && (!IsDir(old(fs), p) ==> Get(fs, p) == Some(Dir(mkdirMode)))
    {
      hide WellFormed, Between;
      var snapshot := fs;
      var deepest := SortByDepth(fs.Keys + before.Keys + after.Keys);
      var shallowest := SortByDepth(before.Keys);
      shallowest := Reverse(shallowest, before.Keys);
      alive := DeleteAll(deepest, stop);
      if alive {
        RebuildStarts(snapshot, deepest);
        alive := CreateAll(snapshot, shallowest, stop);
      }
    }

    lemma RebuildStarts(current: Tree, order: seq<Path>)
      requires Trimmed(current, order) && Lists(order, current.Keys + before.Keys + after.Keys)
      ensures Rebuilt(current, [])
    {
    }

    /** Any number of runs that die anywhere, and then one that does not, end with the original. */
    method RunUntilDone(deaths: seq<Op>)
      requires Valid() && Passes() && Untouched() && ModesAgree()
      modifies `fs, `state, `pending
      ensures fs == before && state == Restored
    {
      for i := 0 to |deaths|
        invariant Valid() && Passes() && Untouched()
      {
        var _ := Run(Some(deaths[i]));
      }
      var _ := Run(None);
    }
  }

  /** The condition is exact: if the mode of one directory that has to be made differs from what
      mkdir gives, a death between mkdir and chmod leaves a tree that no later run accepts. */
  method DiesUnrecoverably(roots: set<Path>, before: Tree, after: Tree, mkdirMode: nat,
                           p: Path) returns (s: Restorer, r: Outcome)
    requires WellFormed(roots, before) && WellFormed(roots, after)
    requires IsDir(before, p) && !IsDir(after, p) && before[p].mode != mkdirMode
    ensures r == Died && !s.Passes() && s.before == before && s.after == after
  {
    s := new Restorer(roots, before, after, mkdirMode);
    r := s.Run(Some(Chmod(p)));
    assert !s.Explained(s.fs, p);
  }

  /** For instance a private directory that the switch removed: mode 0o700, under umask 0o022. */
  method PrivateDirectory(name: Name) returns (s: Restorer, r: Outcome)
    ensures r == Died && !s.Passes() && s.before == map[[name] := Dir(0x1C0)] && s.after == map[]
  {
    s, r := DiesUnrecoverably({[name]}, map[[name] := Dir(0x1C0)], map[], 0x1ED, [name]);
  }
}

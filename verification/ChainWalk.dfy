/** Two independent checks that a target branch moved only by completed queue tasks: the one that
    decides whether a task may be scheduled, and the one that decides whether it may start. */
module ChainWalk {
  import opened Options

  type CommitId = nat
  type Path = nat

  /** One line of a reversed revision list with parents. */
  datatype Line = Line(commit: CommitId, parents: seq<CommitId>)

  datatype Transaction = Transaction(
    completed: bool, commit: CommitId, baseline: CommitId, key: nat, digest: nat, branch: nat, pushed: bool, tree: nat)

  /** A queue item, with the transaction record found in its evidence. */
  datatype Item = Item(
    taskId: nat, key: nat, digest: nat, authorized: bool, completed: bool, branch: nat, root: nat,
    completedCommit: Option<CommitId>, artifacts: set<Path>, transaction: Option<Transaction>)

  datatype Refresh = Reject | CompletedQueueTasks
  datatype Draft = Draft(
    taskId: nat, planningHead: CommitId, branch: nat, root: nat, refresh: Option<Refresh>, sealedInputs: nat, allowed: set<Path>)

  /** What both checks read from Git and the configuration. Fixed: the execution paths that readiness
      protects even if the configuration does not. */
  datatype World = World(
    target: CommitId, ancestor: bool, changed: seq<Path>, lines: seq<Line>, treeOf: CommitId -> nat, inputsAt: CommitId -> nat,
    protected: set<Path>, fixed: set<Path>, prefixFile: Path)

  datatype Walk = Accepted | Declined | Threw

  // ---------------------------------------------------------------- the history both must accept

  predicate Integrated(i: Item, d: Draft) {
    i.completed && i.branch == d.branch && i.root == d.root && i.completedCommit.Some?
  }

  function FindOwner(items: seq<Item>, d: Draft, c: CommitId): (r: Option<Item>)
    ensures r.Some? ==> r.value in items && Integrated(r.value, d) && r.value.completedCommit == Some(c)
    ensures r.None? ==> forall i | i in items :: !(Integrated(i, d) && i.completedCommit == Some(c))
  {
    if items == [] then None
    else if Integrated(items[0], d) && items[0].completedCommit == Some(c) then Some(items[0])
    else FindOwner(items[1..], d, c)
  }

  /** The record of a task that committed this tree on that parent, and finished. */
  predicate Sealed(i: Item, d: Draft, c: CommitId, parent: CommitId, tree: nat) {
    i.transaction.Some? &&
    var tx := i.transaction.value;
    tx.completed && tx.commit == c && tx.baseline == parent && tx.key == i.key && tx.digest == i.digest &&
    tx.branch == d.branch && !tx.pushed && tx.tree == tree
  }

  function Before(d: Draft, lines: seq<Line>, i: nat): CommitId
    requires i <= |lines|
  {
    if i == 0 then d.planningHead else lines[i - 1].commit
  }

  /** One commit is the integration of a completed, authorised task, right on top of its parent. */
  predicate Link(w: World, items: seq<Item>, d: Draft, i: nat)
    requires i < |w.lines|
  {
    var line, parent := w.lines[i], Before(d, w.lines, i);
    var owner := FindOwner(items, d, line.commit);
    line.parents == [parent] && owner.Some? && owner.value.authorized && Sealed(owner.value, d, line.commit, parent, w.treeOf(line.commit))
  }

  /** A non-empty linear history of completed sealed transactions, from the planning head to the target. */
  ghost predicate LinearHistory(w: World, items: seq<Item>, d: Draft) {
    w.lines != [] && Before(d, w.lines, |w.lines|) == w.target && forall i | 0 <= i < |w.lines| :: Link(w, items, d, i)
  }

  /** The first commit that is not a link of the history is that of a completed task, right on its parent. */
  ghost predicate BreaksInTask(w: World, items: seq<Item>, d: Draft, i: nat)
    requires i < |w.lines|
  {
    && (forall j | 0 <= j < i :: Link(w, items, d, j)) && !Link(w, items, d, i)
    && FindOwner(items, d, w.lines[i].commit).Some? && w.lines[i].parents == [Before(d, w.lines, i)]
  }

  /** That task is no longer authorised, or its record is gone: readiness cannot tell then. */
  predicate Unreadable(w: World, items: seq<Item>, d: Draft, i: nat)
    requires i < |w.lines|
  {
    var owner := FindOwner(items, d, w.lines[i].commit);
    owner.Some? && (!owner.value.authorized || owner.value.transaction.None?)
  }

  /** There is only one first commit that is not a link. */
  lemma BreaksOnce(w: World, items: seq<Item>, d: Draft, i: nat)
    requires i < |w.lines| && (forall j | 0 <= j < i :: Link(w, items, d, j)) && !Link(w, items, d, i)
    ensures forall j | 0 <= j < |w.lines| && j != i :: !BreaksInTask(w, items, d, j)
  {
    forall j | 0 <= j < |w.lines| && j != i
      ensures !BreaksInTask(w, items, d, j)
    {
      assert j < i ==> Link(w, items, d, j);
    }
  }

  // ---------------------------------------------------------------- the two walks

  /** The search for the completed task that a commit belongs to. */
  method LocateOwner(items: seq<Item>, d: Draft, c: CommitId) returns (r: Option<Item>)
    ensures r == FindOwner(items, d, c)
  {
    var i := 0;
    while i < |items|
      invariant i <= |items| && FindOwner(items, d, c) == FindOwner(items[i..], d, c)
    {
      var other := items[i];
      assert items[i..][1..] == items[i + 1..];
      if other.completed && other.branch == d.branch && other.root == d.root && other.completedCommit == Some(c) {
        return Some(other);
      }
      i := i + 1;
    }
    r := None;
  }

  /** Field by field: is the record that of this commit on this parent, in this tree? */
  method CheckRecord(i: Item, d: Draft, c: CommitId, parent: CommitId, tree: nat) returns (ok: bool)
    requires i.transaction.Some?
    ensures ok <==> Sealed(i, d, c, parent, tree)
  {
    var tx := i.transaction.value;
    if !tx.completed || tx.commit != c || tx.baseline != parent {
      return false;
    }
    if tx.key != i.key || tx.digest != i.digest || tx.branch != d.branch {
      return false;
    }
    ok := !tx.pushed && tx.tree == tree;
  }

  /** In evaluateReadiness every mismatch of the record only declines the refresh. */
  method WalkReadiness(w: World, items: seq<Item>, d: Draft) returns (r: Walk)
    ensures r == Accepted <==> LinearHistory(w, items, d)
    ensures r == Threw <==> exists i | 0 <= i < |w.lines| :: BreaksInTask(w, items, d, i) && Unreadable(w, items, d, i)
  {
    var parent, i := d.planningHead, 0;
    while i < |w.lines|
      invariant i <= |w.lines| && parent == Before(d, w.lines, i)
      invariant forall j | 0 <= j < i :: Link(w, items, d, j)
    {
      var line := w.lines[i];
      var owner := LocateOwner(items, d, line.commit);
      if owner.None? || line.parents == [] || line.parents[0] != parent || |line.parents| > 1 {
        assert owner.Some? ==> line.parents != [parent];
        BreaksOnce(w, items, d, i);
        return Declined;
      }
      assert line.parents == [parent];
      if !owner.value.authorized || owner.value.transaction.None? {
        assert BreaksInTask(w, items, d, i);
        return Threw;
      }
      var matches := CheckRecord(owner.value, d, line.commit, parent, w.treeOf(line.commit));
      if !matches {
        BreaksOnce(w, items, d, i);
        return Declined;
      }
      parent := line.commit;
      i := i + 1;
    }
    r := if w.lines != [] && parent == w.target then Accepted else Declined;
  }

  /** In prepare a mismatch of the record is an error, and only a foreign commit gives a reason. */
  method WalkPrepare(w: World, items: seq<Item>, d: Draft) returns (r: Walk)
    requires d.planningHead != w.target
    ensures r == Accepted <==> LinearHistory(w, items, d)
    ensures r == Threw <==> exists i | 0 <= i < |w.lines| :: BreaksInTask(w, items, d, i)
  {
    var parent, i := d.planningHead, 0;
    while i < |w.lines|
      invariant i <= |w.lines| && parent == Before(d, w.lines, i)
      invariant forall j | 0 <= j < i :: Link(w, items, d, j)
    {
      var line := w.lines[i];
      var owner := LocateOwner(items, d, line.commit);
      if owner.None? || line.parents == [] || line.parents[0] != parent || |line.parents| > 1 {
        assert owner.Some? ==> line.parents != [parent];
        BreaksOnce(w, items, d, i);
        return Declined;
      }
      assert line.parents == [parent];
      if !owner.value.authorized || owner.value.transaction.None? {
        assert BreaksInTask(w, items, d, i);
        return Threw;
      }
      var matches := CheckRecord(owner.value, d, line.commit, parent, w.treeOf(line.commit));
      if !matches {
        assert BreaksInTask(w, items, d, i);
        return Threw;
      }
      parent := line.commit;
      i := i + 1;
    }
    r := if parent == w.target then Accepted else Declined;
  }

  // ---------------------------------------------------------------- protected changes

  predicate ArtifactOf(items: seq<Item>, d: Draft, p: Path, integrated: bool) {
    exists i | i in items :: i.taskId != d.taskId && (if integrated then Integrated(i, d) else i.completed) && p in i.artifacts
  }

  /** The test of readiness: fixed paths count, and only integrated tasks excuse a change. */
  predicate ExecutionChanged(w: World, items: seq<Item>, d: Draft) {
    exists p | p in w.changed :: ExecutionPath(w, items, d, p)
  }

  predicate ExecutionPath(w: World, items: seq<Item>, d: Draft, p: Path) {
    !ArtifactOf(items, d, p, true) && (p in w.protected || (p != w.prefixFile && p in w.fixed))
  }

  /** The test of prepare. */
  predicate InputsChanged(w: World, items: seq<Item>, d: Draft, p: Path) {
    !ArtifactOf(items, d, p, false) && p in w.protected
  }

  predicate AnyInputsChanged(w: World, items: seq<Item>, d: Draft) {
    exists p | p in w.changed :: InputsChanged(w, items, d, p)
  }

  /** Both tests as they are run, path by path. */
  method FindExecutionChange(w: World, items: seq<Item>, d: Draft) returns (changed: bool)
    ensures changed <==> ExecutionChanged(w, items, d)
  {
    var k := 0;
    changed := false;
    while k < |w.changed| && !changed
      invariant k <= |w.changed|
      invariant changed ==> ExecutionChanged(w, items, d)
      invariant !changed ==> forall j | 0 <= j < k :: !ExecutionPath(w, items, d, w.changed[j])
    {
      var p := w.changed[k];
      var other := exists i | i in items ::
        i.completed && i.branch == d.branch && i.root == d.root && i.completedCommit.Some? && i.taskId != d.taskId && p in i.artifacts;
      changed := !other && (p in w.protected || (p != w.prefixFile && p in w.fixed));
      assert changed <==> ExecutionPath(w, items, d, p);
      k := k + 1;
    }
  }

  method FindInputChange(w: World, items: seq<Item>, d: Draft) returns (changed: bool)
    ensures changed <==> AnyInputsChanged(w, items, d)
  {
    var k := 0;
    changed := false;
    while k < |w.changed| && !changed
      invariant k <= |w.changed|
      invariant changed ==> AnyInputsChanged(w, items, d)
      invariant !changed ==> forall j | 0 <= j < k :: !InputsChanged(w, items, d, w.changed[j])
    {
      var p := w.changed[k];
      var other := exists i | i in items :: i.completed && i.taskId != d.taskId && p in i.artifacts;
      changed := !other && p in w.protected;
      assert changed <==> InputsChanged(w, items, d, p);
      k := k + 1;
    }
  }

  /** The protection test of readiness is the stricter one. */
  lemma ReadinessIsStricter(w: World, items: seq<Item>, d: Draft)
    requires !ExecutionChanged(w, items, d)
    ensures !AnyInputsChanged(w, items, d)
  {
  }

  // ---------------------------------------------------------------- the two verdicts

  datatype Readiness = Ready | Replan | CheckFailed
  datatype Start = Go | Refused | Error

  /** What evaluateReadiness accepts of a baseline, stated without its loop. */
  ghost predicate BaselineReady(w: World, items: seq<Item>, d: Draft) {
    w.target == d.planningHead ||
    (w.ancestor &&
      if d.refresh.None? then
        !ExecutionChanged(w, items, d) && forall p | p in w.changed :: p !in d.allowed
      else
        !ExecutionChanged(w, items, d) && d.refresh == Some(CompletedQueueTasks) &&
        w.inputsAt(w.target) == d.sealedInputs && LinearHistory(w, items, d))
  }

  /** The baseline part of evaluateReadiness: the other conditions can only take readiness away. */
  method EvaluateBaseline(w: World, items: seq<Item>, d: Draft) returns (r: Readiness)
    ensures r == Ready <==> BaselineReady(w, items, d)
    ensures r == CheckFailed <==>
              && w.target != d.planningHead
              && (w.ancestor ==>
                    && d.refresh == Some(CompletedQueueTasks) && !ExecutionChanged(w, items, d) && w.inputsAt(w.target) == d.sealedInputs
                    && exists i | 0 <= i < |w.lines| :: BreaksInTask(w, items, d, i) && Unreadable(w, items, d, i))
  {
    if w.target == d.planningHead {
      return Ready;
    }
    if !w.ancestor {
      return CheckFailed;
    }
    var executionChanged := FindExecutionChange(w, items, d);
    var refresh := d.refresh.None? && !exists p | p in w.changed :: executionChanged || p in d.allowed;
    if d.refresh.Some? && !executionChanged && d.refresh.value == CompletedQueueTasks && w.inputsAt(w.target) == d.sealedInputs {
      var walk := WalkReadiness(w, items, d);
      if walk == Threw {
        return CheckFailed;
      }
      refresh := walk == Accepted;
    }
    r := if refresh then Ready else Replan;
  }

  /** What prepare accepts of a baseline, stated without its loop. */
  ghost predicate BaselineStarts(w: World, items: seq<Item>, d: Draft) {
    w.ancestor &&
    if d.refresh.None? then
      forall p | p in w.changed :: p !in d.allowed && !InputsChanged(w, items, d, p)
    else
      w.inputsAt(d.planningHead) == d.sealedInputs && w.inputsAt(w.target) == d.sealedInputs && !AnyInputsChanged(w, items, d) &&
      (w.target == d.planningHead || (d.refresh == Some(CompletedQueueTasks) && LinearHistory(w, items, d)))
  }

  /** A commit is its own ancestor and differs in nothing from itself. */
  predicate Coherent(w: World, d: Draft) {
    w.target == d.planningHead ==> w.ancestor && w.changed == []
  }

  /** The inputs that were sealed are those of the planning head. */
  predicate InputsSealed(w: World, d: Draft) {
    d.refresh.Some? ==> w.inputsAt(d.planningHead) == d.sealedInputs
  }

  /** What readiness accepts, prepare accepts in the same document and Git state. */
  lemma ReadyStarts(w: World, items: seq<Item>, d: Draft)
    requires Coherent(w, d) && InputsSealed(w, d) && BaselineReady(w, items, d)
    ensures BaselineStarts(w, items, d)
  {
  }

  /** The converse holds unless the stricter protection test is what keeps readiness back. */
  lemma StartsReady(w: World, items: seq<Item>, d: Draft)
    requires BaselineStarts(w, items, d)
    ensures BaselineReady(w, items, d) <==> w.target == d.planningHead || !ExecutionChanged(w, items, d)
  {
  }

  /** And it does: a fixed execution path that the configuration does not protect. */
  lemma StricterInFact()
    ensures exists w: World, d: Draft :: Coherent(w, d) && BaselineStarts(w, [], d) && !BaselineReady(w, [], d)
  {
    var w := World(1, true, [7], [], c => 0, c => 0, {}, {7}, 0);
    var d := Draft(0, 0, 0, 0, None, 0, {});
    assert 7 in w.changed && !ArtifactOf([], d, 7, true);
    assert ExecutionChanged(w, [], d);
    assert Coherent(w, d) && BaselineStarts(w, [], d) && !BaselineReady(w, [], d);
  }

  /** The baseline part of prepare. Refused: a refresh reason sends the task back to review. */
  method PrepareBaseline(w: World, items: seq<Item>, d: Draft) returns (r: Start)
    ensures r == Go <==> BaselineStarts(w, items, d)
    ensures Coherent(w, d) && BaselineReady(w, items, d) ==> r != Refused
    ensures r == Error <==>
              || !w.ancestor || (d.refresh.Some? && w.inputsAt(d.planningHead) != d.sealedInputs)
              || (d.refresh == Some(CompletedQueueTasks) && w.inputsAt(w.target) == d.sealedInputs && !AnyInputsChanged(w, items, d) &&
                  w.target != d.planningHead && exists i | 0 <= i < |w.lines| :: BreaksInTask(w, items, d, i))
  {
    if !ExecutionChanged(w, items, d) {
      ReadinessIsStricter(w, items, d);
    }
    if !w.ancestor {
      return Error;
    }
    if d.refresh.None? {
      var changed := FindInputChange(w, items, d);
      return if changed || exists p | p in w.changed :: p in d.allowed then Refused else Go;
    }
    if w.inputsAt(d.planningHead) != d.sealedInputs {
      return Error;
    }
    if w.inputsAt(w.target) != d.sealedInputs {
      return Refused;
    }
    var changed := FindInputChange(w, items, d);
    if changed {
      return Refused;
    }
    if w.target == d.planningHead {
      return Go;
    }
    if d.refresh.value == Reject {
      return Refused;
    }
    var walk := WalkPrepare(w, items, d);
    r := match walk case Accepted => Go case Declined => Refused case Threw => Error;
  }
}

/** Safety of the local commit transaction over every run: any number of crashes and
    recovery runs, any schedule, and any outside writer that leaves the task reference alone. */
module CommitSafety {
  import opened Options
  import opened Git
  import opened CommitProtocol

  lemma PreparedInv(k: Contract, s: State)
    requires Prepared(k, s)
    ensures Inv(k, s)
  {
  }

  lemma {:induction false} RunInv(k: Contract, states: seq<State>, ops: seq<Op>, i: nat)
    requires IsRun(k, states, ops) && i < |states|
    ensures Inv(k, states[i])
  {
    hide Step, Inv;
    assert StepAt(k, states, ops, 0);
    PreparedInv(k, states[0]);
    if i > 0 {
      RunInv(k, states, ops, i - 1);
      assert StepAt(k, states, ops, i - 1);
      StepInv(k, states[i - 1], ops[i - 1], states[i]);
    }
  }

  // ---------------------------------------------------------------- the record

  /** What one operation can do to the durable record: create it, or keep its sealed
      content and authorization while the stage and the commit id only move forward. */
  predicate RecordForward(before: Option<Transaction>, after: Option<Transaction>) {
    before.Some? ==>
      && after.Some?
      && var x, y := before.value, after.value;
      && y == x.(stage := y.stage, commit := y.commit)
      && StageRank(x.stage) <= StageRank(y.stage)
      && (x.commit.Some? ==> y.commit == x.commit)
  }

  function StageRank(s: Stage): nat {
    match s
    case Intent => 0
    case Committed => 1
    case Verified => 2
    case Integrated => 3
    case Completed => 4
  }

  lemma StepRecordForward(k: Contract, s: State, op: Op, s': State)
    requires Inv(k, s) && Step(k, s, op, s')
    ensures RecordForward(s.record, s'.record)
    ensures Grows(k, s.git, s'.git)
  {
    hide Ancestor, Acyclic, Clean, HeadCommit, Grows;
    StepGrows(k, s, op, s');
  }

  lemma {:induction false} RecordHistory(k: Contract, states: seq<State>, ops: seq<Op>, i: nat, j: nat)
    requires IsRun(k, states, ops) && i <= j < |states|
    ensures RecordForward(states[i].record, states[j].record)
    ensures i < j ==> Grows(k, states[i].git, states[j].git)
  {
    hide Step, Inv;
    if i < j {
      RecordHistory(k, states, ops, i, j - 1);
      RunInv(k, states, ops, j - 1);
      assert StepAt(k, states, ops, j - 1);
      StepRecordForward(k, states[j - 1], ops[j - 1], states[j]);
    }
  }

  // ---------------------------------------------------------------- the task reference

  /** 0: at the baseline, 1: at a commit of this transaction, 2: deleted. */
  function TaskPhase(k: Contract, g: Repo): nat {
    match Ref(g, Task)
    case None => 2
    case Some(c) => if c == k.baseline then 0 else 1
  }

  lemma StepTaskPhase(k: Contract, s: State, op: Op, s': State)
    requires Inv(k, s) && Step(k, s, op, s')
    ensures TaskPhase(k, s.git) <= TaskPhase(k, s'.git)
    ensures TaskPhase(k, s.git) == TaskPhase(k, s'.git) ==> Ref(s'.git, Task) == Ref(s.git, Task)
  {
  }

  /** Over a whole run the task branch goes from the baseline to one commit to deleted:
      it never goes back, and never shows a second commit, even when commit-tree ran twice. */
  lemma {:induction false} TaskBranchHistory(k: Contract, states: seq<State>, ops: seq<Op>, i: nat, j: nat)
    requires IsRun(k, states, ops) && i <= j < |states|
    ensures TaskPhase(k, states[i].git) <= TaskPhase(k, states[j].git)
    ensures TaskPhase(k, states[i].git) == TaskPhase(k, states[j].git) ==>
              Ref(states[j].git, Task) == Ref(states[i].git, Task)
  {
    hide Step, Inv;
    if i < j {
      TaskBranchHistory(k, states, ops, i, j - 1);
      RunInv(k, states, ops, j - 1);
      assert StepAt(k, states, ops, j - 1);
      StepTaskPhase(k, states[j - 1], ops[j - 1], states[j]);
    }
  }

  /** The one commit the task branch can show is the sealed tree on top of the baseline,
      and it is the commit the durable record names. */
  lemma TaskCommitIsSealed(k: Contract, states: seq<State>, ops: seq<Op>, i: nat)
    requires IsRun(k, states, ops) && i < |states| && TaskPhase(k, states[i].git) == 1
    ensures states[i].record.Some?
    ensures var tx := states[i].record.value;
            && tx.commit == Ref(states[i].git, Task) && tx.commit.Some? && tx.commit.value in states[i].git.objects
            && states[i].git.objects[tx.commit.value] == Object(tx.tree, Some(k.baseline))
            && tx.candidate == Candidate(k.digest, k.baseline, Diff(BaseTree(k, states[i].git), tx.tree))
            && Authorized(k, tx)
  {
    RunInv(k, states, ops, i);
  }

  /** Because the commit id is persisted before the branch moves, recovery never meets a task
      commit that its record does not name. */
  lemma AdoptionNeverHappens(k: Contract, states: seq<State>, ops: seq<Op>, i: nat)
    requires IsRun(k, states, ops) && i < |ops|
    ensures ops[i] != Work(Adopt)
  {
    RunInv(k, states, ops, i);
    assert StepAt(k, states, ops, i);
  }

  // ---------------------------------------------------------------- the target reference

  /** The target branch as the transaction leaves it: a fast-forward to exactly the commit
      whose content was authorized, from that commit itself or an ancestor of the baseline. */
  lemma MergeIsAuthorized(k: Contract, states: seq<State>, ops: seq<Op>, i: nat)
    requires IsRun(k, states, ops) && i < |ops| && ops[i] == Work(Merge)
    ensures states[i].record.Some? && states[i].record.value.stage == Verified
    ensures Ref(states[i].git, Target).Some? && Ref(states[i + 1].git, Target).Some?
    ensures var g, c := states[i + 1].git, Ref(states[i + 1].git, Target).value;
            && states[i].record.value.commit == Some(c) && c in g.objects
            && g.objects[c].parent == Some(k.baseline)
            && states[i].record.value.candidate == Candidate(k.digest, k.baseline, Diff(BaseTree(k, g), g.objects[c].tree))
            && (k.autoCommit || k.accepted == Some(states[i].record.value.candidate))
            && var from := Ref(states[i].git, Target).value;
               (from == c || Ancestor(states[i].git.objects, from, k.baseline))
  {
    RunInv(k, states, ops, i);
    assert StepAt(k, states, ops, i);
  }

  /** The only operation of the transaction that can move the target is the merge. */
  lemma StepTarget(k: Contract, s: State, op: Op, s': State)
    requires Step(k, s, op, s')
    ensures op.Outside? || op == Work(Merge) || Ref(s'.git, Target) == Ref(s.git, Target)
  {
  }

  ghost predicate OutsideWithin(ops: seq<Op>, lo: nat, hi: nat) {
    exists m: nat | lo <= m < hi && m < |ops| :: ops[m].Outside?
  }

  lemma {:induction false} MergedTargetStays(k: Contract, states: seq<State>, ops: seq<Op>, i: nat, j: nat)
    requires IsRun(k, states, ops) && i < j <= |ops| && ops[i] == Work(Merge)
    requires !OutsideWithin(ops, i, j)
    ensures states[i].record.Some? && Ref(states[j].git, Target) == states[i].record.value.commit
  {
    hide Step;
    if i + 1 == j {
      MergeIsAuthorized(k, states, ops, i);
    } else {
      assert !OutsideWithin(ops, i, j - 1);
      MergedTargetStays(k, states, ops, i, j - 1);
      assert StepAt(k, states, ops, j - 1);
      StepTarget(k, states[j - 1], ops[j - 1], states[j]);
      if ops[j - 1] == Work(Merge) {
        MergeIsAuthorized(k, states, ops, i);
        MergeIsAuthorized(k, states, ops, j - 1);
        RecordHistory(k, states, ops, i, j - 1);
      }
    }
  }

  ghost predicate MovesTarget(states: seq<State>, ops: seq<Op>, i: nat)
    requires |states| == |ops| + 1
  {
    i < |ops| && ops[i] == Work(Merge) && Ref(states[i + 1].git, Target) != Ref(states[i].git, Target)
  }

  /** The transaction moves the target at most once unless somebody else moved it in between. */
  lemma TargetMovedOnce(k: Contract, states: seq<State>, ops: seq<Op>, i: nat, j: nat)
    requires IsRun(k, states, ops) && i < j && MovesTarget(states, ops, i) && MovesTarget(states, ops, j)
    ensures OutsideWithin(ops, i, j)
  {
    if !OutsideWithin(ops, i, j) {
      MergedTargetStays(k, states, ops, i, j);
      MergeIsAuthorized(k, states, ops, j);
      RecordHistory(k, states, ops, i, j);
      assert false;
    }
  }

  /** What a running executor remembers of the target was true when it read it, in this
      same run, and stays true until somebody else moves the target or it merges. */
  ghost predicate ReadAt(states: seq<State>, ops: seq<Op>, j: nat, i: nat, seen: Option<Commit>)
    requires |states| == |ops| + 1
  {
    && j < i <= |ops| && ops[j] == Work(ReadTarget) && Ref(states[j].git, Target) == seen
    && (forall m | j < m < i :: ops[m] != Stop)
  }

  /** Only a read makes a memory of the target, and only a stop loses it. */
  lemma StepMemory(k: Contract, s: State, op: Op, s': State)
    requires Step(k, s, op, s') && s'.view.Some? && s'.view.value.saw.Some?
    ensures if op == Work(ReadTarget) then s'.view.value.saw == Ref(s.git, Target)
            else op != Stop && s.view.Some? && s.view.value.saw == s'.view.value.saw
  {
    hide Ancestor, Acyclic, Clean, HeadCommit, Realizes;
  }

  lemma {:induction false} MemoryWasRead(k: Contract, states: seq<State>, ops: seq<Op>, i: nat) returns (j: nat)
    requires IsRun(k, states, ops) && i < |states|
    requires states[i].view.Some? && states[i].view.value.saw.Some?
    ensures ReadAt(states, ops, j, i, states[i].view.value.saw)
  {
    hide Step;
    j := 0;
    assert StepAt(k, states, ops, 0);
    if i == 0 {
      assert false;
    } else {
      assert StepAt(k, states, ops, i - 1);
      StepMemory(k, states[i - 1], ops[i - 1], states[i]);
      if ops[i - 1] == Work(ReadTarget) {
        j := i - 1;
      } else {
        j := MemoryWasRead(k, states, ops, i - 1);
      }
    }
  }

  lemma {:induction false} TargetUnmoved(k: Contract, states: seq<State>, ops: seq<Op>, j: nat, i: nat)
    requires IsRun(k, states, ops) && j <= i <= |ops|
    requires forall m | j <= m < i :: !ops[m].Outside? && ops[m] != Work(Merge)
    ensures Ref(states[i].git, Target) == Ref(states[j].git, Target)
  {
    hide Step;
    if j < i {
      TargetUnmoved(k, states, ops, j, i - 1);
      assert StepAt(k, states, ops, i - 1);
      StepTarget(k, states[i - 1], ops[i - 1], states[i]);
    }
  }

  /** A merge that moves the target moves it from the baseline, unless an outside writer came
      between the check of the target and the merge; then Git's fast-forward rule still applies. */
  lemma MovesFromBaseline(k: Contract, states: seq<State>, ops: seq<Op>, i: nat) returns (j: nat)
    requires IsRun(k, states, ops) && MovesTarget(states, ops, i)
    ensures ReadAt(states, ops, j, i, Some(k.baseline))
    ensures OutsideWithin(ops, j, i) || Ref(states[i].git, Target) == Some(k.baseline)
  {
    j := MergedWhatWasLeft(k, states, ops, i);
    if !OutsideWithin(ops, j, i) {
      var m := LastWriter(ops, j, i);
      LastWriterIsLast(ops, j, i);
      if m.Some? {
        MergeIsAuthorized(k, states, ops, i);
        assert false;
      }
    }
  }

  // ---------------------------------------------------------------- what the merge can find

  /** The last operation from j on and before i that can have moved the target. */
  function LastWriter(ops: seq<Op>, j: nat, i: nat): (m: Option<nat>)
    requires j <= i <= |ops|
    ensures m.Some? ==> j <= m.value < i
  {
    if j == i then None
    else if ops[i - 1].Outside? || ops[i - 1] == Work(Merge) then Some(i - 1)
    else LastWriter(ops, j, i - 1)
  }

  lemma {:induction false} LastWriterIsLast(ops: seq<Op>, j: nat, i: nat)
    requires j <= i <= |ops|
    ensures LastWriter(ops, j, i).Some? ==>
              var m := LastWriter(ops, j, i).value;
              && j <= m < i && (ops[m].Outside? || ops[m] == Work(Merge))
              && forall n | m < n < i :: !ops[n].Outside? && ops[n] != Work(Merge)
    ensures LastWriter(ops, j, i).None? ==> forall n | j <= n < i :: !ops[n].Outside? && ops[n] != Work(Merge)
  {
    if j < i && !ops[i - 1].Outside? && ops[i - 1] != Work(Merge) {
      LastWriterIsLast(ops, j, i - 1);
    }
  }

  lemma MergeChecked(k: Contract, s: State, s': State)
    requires Step(k, s, Work(Merge), s')
    ensures s.record.Some? && s.view.Some? && s.view.value.saw == Some(k.baseline)
  {
  }

  lemma StepOutside(k: Contract, s: State, op: Op, s': State)
    requires Step(k, s, op, s') && op.Outside?
    ensures s'.git == op.after
  {
  }

  /** The merge finds the target exactly as the last writer after the check left it: at the baseline
      if there was none, at the commit if that was an earlier merge, wherever the outsider put it otherwise. */
  lemma MergedWhatWasLeft(k: Contract, states: seq<State>, ops: seq<Op>, i: nat) returns (j: nat)
    requires IsRun(k, states, ops) && i < |ops| && ops[i] == Work(Merge)
    ensures ReadAt(states, ops, j, i, Some(k.baseline))
    ensures states[i].record.Some?
    ensures Ref(states[i].git, Target) ==
              match LastWriter(ops, j, i)
              case None => Some(k.baseline)
              case Some(m) => if ops[m].Outside? then Ref(ops[m].after, Target) else states[i].record.value.commit
  {
    hide Step;
    assert StepAt(k, states, ops, i);
    MergeChecked(k, states[i], states[i + 1]);
    j := MemoryWasRead(k, states, ops, i);
    LastWriterIsLast(ops, j, i);
    match LastWriter(ops, j, i)
    case None => TargetUnmoved(k, states, ops, j, i);
    case Some(m) =>
      assert StepAt(k, states, ops, m);
      if ops[m].Outside? {
        StepOutside(k, states[m], ops[m], states[m + 1]);
      }
      TargetUnmoved(k, states, ops, m + 1, i);
      if ops[m] == Work(Merge) {
        MergeIsAuthorized(k, states, ops, m);
        RecordHistory(k, states, ops, m, i);
      }
  }

  /** The executor is about to merge: everything it checks has been checked. */
  predicate AboutToMerge(k: Contract, s: State) {
    Discipline(k, s, Work(Merge))
  }

  /** Some outside writer can put the target at a and have the merge go through from there. */
  ghost predicate CanMergeFrom(k: Contract, s: State, a: Commit) {
    exists g | OutsideMayChange(s.git, g) :: Ref(g, Target) == Some(a) && Permitted(k, s.(git := g), Work(Merge))
  }

  predicate Mergeable(k: Contract, s: State, a: Commit) {
    s.record.Some? && (s.record.value.commit == Some(a) || Ancestor(s.git.objects, a, k.baseline))
  }

  /** Exactly the commit itself and the ancestors of the baseline can be merged from, whatever the
      executor checked before: nobody looks at the target again. */
  lemma CanMergeFromExactly(k: Contract, states: seq<State>, ops: seq<Op>, a: Commit)
    requires IsRun(k, states, ops) && AboutToMerge(k, states[|ops|])
    ensures var s := states[|ops|];
            s.record.Some? && (CanMergeFrom(k, s, a) <==> Mergeable(k, s, a))
  {
    hide Permitted, Ancestor, OutsideMayChange, Inv, Reset, WorkDiscipline;
    var s := states[|ops|];
    RunInv(k, states, ops, |ops|);
    if CanMergeFrom(k, s, a) {
      var g :| OutsideMayChange(s.git, g) && Ref(g, Target) == Some(a) && Permitted(k, s.(git := g), Work(Merge));
      CameFrom(k, s, g, a);
    }
    if Mergeable(k, s, a) {
      ResetPermitted(k, s, a);
      assert CanMergeFrom(k, s, a);
    }
  }

  lemma CameFrom(k: Contract, s: State, g: Repo, a: Commit)
    requires Inv(k, s) && AboutToMerge(k, s)
    requires OutsideMayChange(s.git, g) && Ref(g, Target) == Some(a) && Permitted(k, s.(git := g), Work(Merge))
    ensures Mergeable(k, s, a)
  {
    AncestorsStay(s.git.objects, g.objects, a, k.baseline);
  }

  lemma ResetPermitted(k: Contract, s: State, a: Commit)
    requires Inv(k, s) && AboutToMerge(k, s) && Mergeable(k, s, a)
    ensures var g := Reset(s.git, a);
            && OutsideMayChange(s.git, g) && Ref(g, Target) == Some(a) && Permitted(k, s.(git := g), Work(Merge))
            && Ref(Apply(k, s.(git := g), Work(Merge)).git, Target) == s.record.value.commit
  {
  }

  /** Somebody resets the target branch, checked out in the source root, to a. */
  function Reset(g: Repo, a: Commit): Repo {
    var t := if a in g.objects then g.objects[a].tree else 0;
    g.(refs := g.refs[Target := a], source := Root(OnBranch(Target), t, t))
  }

  lemma {:induction false} AncestorsStay(before: map<Commit, Object>, after: map<Commit, Object>, a: Commit, c: Commit)
    requires Acyclic(before) && c in before && forall x | x in before :: x in after && after[x] == before[x]
    ensures Ancestor(before, a, c) == Ancestor(after, a, c)
    decreases c
  {
    if before[c].parent.Some? {
      AncestorsStay(before, after, a, before[c].parent.value);
    }
  }

  /** A reset between the last check and the merge is not noticed: the run goes on and moves the
      target to the commit from where the reset put it. */
  lemma ResetIsMergedFrom(k: Contract, states: seq<State>, ops: seq<Op>, a: Commit) returns (states': seq<State>)
    requires IsRun(k, states, ops) && AboutToMerge(k, states[|ops|])
    requires states[|ops|].record.value.commit != Some(a) && Ancestor(states[|ops|].git.objects, a, k.baseline)
    ensures |states'| == |states| + 2 && states'[..|states|] == states
    ensures var ops' := ops + [Outside(Reset(states[|ops|].git, a)), Work(Merge)];
            && IsRun(k, states', ops') && MovesTarget(states', ops', |ops| + 1)
            && Ref(states'[|ops| + 1].git, Target) == Some(a)
            && Ref(states'[|ops| + 2].git, Target) == states[|ops|].record.value.commit
  {
    hide Permitted, Ancestor, OutsideMayChange, Inv, Reset, WorkDiscipline, StepAt, Apply;
    var s := states[|ops|];
    RunInv(k, states, ops, |ops|);
    ResetPermitted(k, s, a);
    var s1 := s.(git := Reset(s.git, a));
    OutsideStep(k, s, s1.git);
    ExtendRun(k, states, ops, Outside(s1.git), s1);
    var s2 := Apply(k, s1, Work(Merge));
    ExtendRun(k, states + [s1], ops + [Outside(s1.git)], Work(Merge), s2);
    states' := states + [s1] + [s2];
    assert ops + [Outside(s1.git)] + [Work(Merge)] == ops + [Outside(s1.git), Work(Merge)];
  }

  lemma OutsideStep(k: Contract, s: State, g: Repo)
    requires OutsideMayChange(s.git, g)
    ensures Step(k, s, Outside(g), s.(git := g))
  {
  }

  /** One more permitted step, not an outsider's. */
  lemma Continue(k: Contract, states: seq<State>, ops: seq<Op>, op: Op) returns (states': seq<State>, ops': seq<Op>)
    requires IsRun(k, states, ops) && Permitted(k, states[|ops|], op) && !op.Outside?
    ensures IsRun(k, states', ops') && states'[|ops'|] == Apply(k, states[|ops|], op)
  {
    states', ops' := states + [Apply(k, states[|ops|], op)], ops + [op];
    ExtendRun(k, states, ops, op, Apply(k, states[|ops|], op));
  }

  const RACE: Contract := Contract(false, true, 7, 1, None)

  function RaceTransaction(stage: Stage, commit: Option<Commit>): Transaction {
    Transaction(stage, 1, 12, Diff(11, 12), commit, 7, Candidate(7, 1, Diff(11, 12)))
  }

  function RaceRepo(task: Commit, committed: bool, index: Tree): Repo {
    var objects := map[0 := Object(10, None), 1 := Object(11, Some(0))];
    Repo(if committed then objects[2 := Object(12, Some(1))] else objects,
         map[Task := task, Target := 1], Root(OnBranch(Target), 11, 11), Some(Root(OnBranch(Task), index, 12)))
  }

  /** The record and the executor's memory agree. */
  function RaceState(g: Repo, tx: Transaction, aligned: bool, verified: bool): State {
    State(g, Some(tx), None, Some(View(tx, aligned, verified, None, false, false)))
  }

  /** An isolated task with baseline 1, whose parent is 0, begins its transaction. */
  lemma RaceBegins() returns (states: seq<State>, ops: seq<Op>)
    ensures IsRun(RACE, states, ops)
    ensures states[|ops|] == RaceState(RaceRepo(1, false, 11), RaceTransaction(Intent, None), false, false)
  {
    states, ops := [State(RaceRepo(1, false, 11), None, None, None)], [];
    states, ops := Continue(RACE, states, ops, Draft(12));
    states, ops := Continue(RACE, states, ops, Begin);
  }

  /** Its commit 2 is on the task branch. */
  lemma RaceCommits() returns (states: seq<State>, ops: seq<Op>)
    ensures IsRun(RACE, states, ops)
    ensures states[|ops|] == RaceState(RaceRepo(2, true, 11), RaceTransaction(Intent, Some(2)), false, false)
  {
    hide StepAt, Ancestor, Acyclic, HeadCommit, Clean;
    states, ops := RaceBegins();
    states, ops := Continue(RACE, states, ops, Work(CommitTree(2)));
    assert states[|ops|].git == RaceRepo(1, true, 11);
    states, ops := Continue(RACE, states, ops, Work(Persist));
    states, ops := Continue(RACE, states, ops, Work(MoveTask));
  }

  lemma RaceSettles() returns (states: seq<State>, ops: seq<Op>)
    ensures IsRun(RACE, states, ops)
    ensures states[|ops|] == RaceState(RaceRepo(2, true, 12), RaceTransaction(Committed, Some(2)), true, false)
  {
    hide StepAt, Ancestor, Acyclic, HeadCommit, Clean;
    states, ops := RaceCommits();
    states, ops := Continue(RACE, states, ops, Work(AlignIndex));
    states, ops := Continue(RACE, states, ops, Work(Advance));
  }

  /** The commit is verified, and the target is checked: it stands at the baseline. */
  lemma RaceChecks() returns (states: seq<State>, ops: seq<Op>)
    ensures IsRun(RACE, states, ops)
    ensures states[|ops|].git == RaceRepo(2, true, 12) && states[|ops|].record == Some(RaceTransaction(Verified, Some(2)))
    ensures AboutToMerge(RACE, states[|ops|])
  {
    hide StepAt, Ancestor, Acyclic, HeadCommit, Clean;
    states, ops := RaceSettles();
    states, ops := Continue(RACE, states, ops, Work(Verify));
    states, ops := Continue(RACE, states, ops, Work(Advance));
    states, ops := Continue(RACE, states, ops, Work(ReadTarget));
  }

  /** It does happen: the target is reset to 0 after the check, and the merge moves it from 0 to 2. */
  lemma RaceHappens() returns (states: seq<State>, ops: seq<Op>, i: nat)
    ensures IsRun(RACE, states, ops) && MovesTarget(states, ops, i) && RACE.baseline == 1
    ensures Ref(states[i].git, Target) == Some(0) && Ref(states[i + 1].git, Target) == Some(2)
  {
    states, ops := RaceChecks();
    i := |ops| + 1;
    assert Ancestor(states[|ops|].git.objects, 0, 1);
    var states' := ResetIsMergedFrom(RACE, states, ops, 0);
    states, ops := states', ops + [Outside(Reset(states[|ops|].git, 0)), Work(Merge)];
  }

  // ---------------------------------------------------------------- verification first

  /** The commits that a state, durable or in memory, treats as verified. */
  function ClaimedVerified(s: State): set<Option<Commit>> {
    (if s.record.Some? && StageRank(s.record.value.stage) >= 2 then {s.record.value.commit} else {}) +
    (if s.view.Some? && s.view.value.verified then {s.view.value.tx.commit} else {})
  }

  ghost predicate VerifyRan(states: seq<State>, ops: seq<Op>, j: nat, c: Option<Commit>)
    requires |states| == |ops| + 1
  {
    j < |ops| && ops[j] == Work(Verify) && states[j].view.Some? && states[j].view.value.tx.commit == c
  }

  lemma StepClaims(k: Contract, s: State, op: Op, s': State)
    requires Inv(k, s) && Step(k, s, op, s')
    requires s.view.Some? && s.view.value.verified ==> s.view.value.tx.stage != Intent
    ensures s'.view.Some? && s'.view.value.verified ==> s'.view.value.tx.stage != Intent
    ensures op == Work(Verify) ==> s.view.Some?
    ensures ClaimedVerified(s') <= ClaimedVerified(s) + (if op == Work(Verify) then {s.view.value.tx.commit} else {})
  {
    hide Inv, Step, ClaimedVerified;
    match op
    case Work(w) =>
      if w.Verify? {
        VerifyClaims(k, s, s');
      } else {
        WorkClaims(k, s, w, s');
      }
    case Draft(_) => OtherClaims(k, s, op, s');
    case Begin => OtherClaims(k, s, op, s');
    case Resume => OtherClaims(k, s, op, s');
    case Stop => OtherClaims(k, s, op, s');
    case Outside(_) => OtherClaims(k, s, op, s');
  }

  lemma VerifyClaims(k: Contract, s: State, s': State)
    requires Step(k, s, Work(Verify), s')
    ensures s.view.Some? && s'.view.Some? && s'.view.value.tx.stage == Committed
    ensures ClaimedVerified(s') <= ClaimedVerified(s) + {s.view.value.tx.commit}
  {
    hide Ancestor, Acyclic, Clean;
  }

  /** No other step of an open transaction establishes a verification; the stage moves on with it. */
  lemma WorkClaims(k: Contract, s: State, w: Work, s': State)
    requires Inv(k, s) && Step(k, s, Work(w), s') && !w.Verify?
    requires s.view.Some? && s.view.value.verified ==> s.view.value.tx.stage != Intent
    ensures s'.view.Some? && s'.view.value.verified ==> s'.view.value.tx.stage != Intent
    ensures ClaimedVerified(s') <= ClaimedVerified(s)
  {
    hide ClaimedVerified;
    if Quiet(w) {
      QuietStep(k, s, w, s');
      SameVerified(k, s, w, s');
      SameClaims(s, s');
    } else if w.Advance? {
      AdvanceClaims(k, s, s');
    } else {
      SealClaims(k, s, w, s');
    }
  }

  lemma SameVerified(k: Contract, s: State, w: Work, s': State)
    requires Step(k, s, Work(w), s') && !w.Verify?
    ensures s.view.Some? && s'.view.Some? && s'.view.value.verified == s.view.value.verified
  {
    hide Ancestor, Acyclic, Clean, HeadCommit, Realizes;
  }

  lemma SameClaims(s: State, s': State)
    requires s.record == s'.record && s.view.Some? && s'.view.Some?
    requires s.view.value.tx == s'.view.value.tx && s.view.value.verified == s'.view.value.verified
    ensures ClaimedVerified(s') == ClaimedVerified(s)
  {
  }

  lemma AdvanceClaims(k: Contract, s: State, s': State)
    requires Inv(k, s) && Step(k, s, Work(Advance), s')
    ensures s'.view.Some? && s'.view.value.tx.stage != Intent
    ensures ClaimedVerified(s') <= ClaimedVerified(s)
  {
    hide Ancestor, Acyclic, Clean, TransactionSound, TaskRefSound;
  }

  lemma SealClaims(k: Contract, s: State, w: Work, s': State)
    requires Inv(k, s) && Step(k, s, Work(w), s') && !Quiet(w) && !w.Advance?
    requires s.view.Some? && s.view.value.verified ==> s.view.value.tx.stage != Intent
    ensures s'.view.Some? && s'.view.value.verified ==> s'.view.value.tx.stage != Intent
    ensures ClaimedVerified(s') <= ClaimedVerified(s)
  {
    hide Ancestor, Acyclic, Clean, TransactionSound, TaskRefSound;
  }

  lemma OtherClaims(k: Contract, s: State, op: Op, s': State)
    requires Inv(k, s) && Step(k, s, op, s') && !op.Work?
    requires s.view.Some? && s.view.value.verified ==> s.view.value.tx.stage != Intent
    ensures s'.view.Some? && s'.view.value.verified ==> s'.view.value.tx.stage != Intent
    ensures ClaimedVerified(s') <= ClaimedVerified(s)
  {
    hide Ancestor, Acyclic, Clean, TransactionSound, TaskRefSound;
  }

  lemma NothingClaimed(k: Contract, s: State)
    requires Prepared(k, s)
    ensures ClaimedVerified(s) == {}
  {
  }

  lemma {:induction false} VerificationHappened(k: Contract, states: seq<State>, ops: seq<Op>, i: nat, c: Option<Commit>)
    returns (j: nat)
    requires IsRun(k, states, ops) && i < |states|
    ensures states[i].view.Some? && states[i].view.value.verified ==> states[i].view.value.tx.stage != Intent
    ensures c in ClaimedVerified(states[i]) ==> j < i && VerifyRan(states, ops, j, c)
  {
    hide Step, Inv, ClaimedVerified;
    j := 0;
    assert StepAt(k, states, ops, 0);
    NothingClaimed(k, states[0]);
    if i > 0 {
      j := VerificationHappened(k, states, ops, i - 1, c);
      RunInv(k, states, ops, i - 1);
      assert StepAt(k, states, ops, i - 1);
      StepClaims(k, states[i - 1], ops[i - 1], states[i]);
      if c !in ClaimedVerified(states[i - 1]) {
        j := i - 1;
      }
    }
  }

  /** The target only ever receives a commit that passed verify-integration.sh earlier. */
  lemma MergeWasVerified(k: Contract, states: seq<State>, ops: seq<Op>, i: nat) returns (j: nat)
    requires IsRun(k, states, ops) && i < |ops| && ops[i] == Work(Merge)
    ensures j < i && VerifyRan(states, ops, j, Ref(states[i + 1].git, Target))
  {
    MergeIsAuthorized(k, states, ops, i);
    j := VerificationHappened(k, states, ops, i, states[i].record.value.commit);
  }
}

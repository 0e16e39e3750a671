/** Runs that nobody disturbs: only the executor's own steps, crashes and restarts. Every
    state such a run can leave behind is one from which recovery can go on. */
module CommitRecovery {
  import opened Options
  import opened Git
  import opened CommitProtocol
  import opened CommitSafety

  /** The target still stands at the baseline; an isolated task leaves the source root on it, clean. */
  predicate SourceWaiting(k: Contract, g: Repo) {
    && Ref(g, Target) == Some(k.baseline)
    && (!k.inPlace ==> g.source == Root(OnBranch(Target), BaseTree(k, g), BaseTree(k, g)))
  }

  predicate SealedRoot(k: Contract, g: Repo, index: Tree, files: Tree) {
    TaskRoot(k, g) == Some(Root(OnBranch(Task), index, files))
  }

  predicate AtTarget(g: Repo) {
    g.source.head == OnBranch(Target) && Clean(g, g.source)
  }

  predicate WorktreeKept(k: Contract, g: Repo, tx: Transaction) {
    g.worktree.Some? ==>
      && tx.commit.Some? && g.worktree.value.index == g.worktree.value.files == tx.tree
      && (g.worktree.value.head == Detached(tx.commit.value) ||
          (g.worktree.value.head == OnBranch(Task) && Ref(g, Task) == tx.commit))
  }

  predicate RootsFit(k: Contract, g: Repo, tx: Transaction, v: Option<View>) {
    match tx.stage
    case Intent =>
      && SourceWaiting(k, g)
      && (SealedRoot(k, g, tx.tree, tx.tree) || SealedRoot(k, g, BaseTree(k, g), tx.tree))
      && (v.Some? && v.value.aligned ==> SealedRoot(k, g, tx.tree, tx.tree))
      && (v.Some? ==> !v.value.onTarget && !v.value.arrived)
    case Committed =>
      && SourceWaiting(k, g) && SealedRoot(k, g, tx.tree, tx.tree)
      && (v.Some? ==> !v.value.onTarget && !v.value.arrived)
    case Verified =>
      && (Ref(g, Target) == Some(k.baseline) || Ref(g, Target) == tx.commit)
      && (if k.inPlace
          then AtTarget(g) || (SealedRoot(k, g, tx.tree, tx.tree) && Ref(g, Target) == Some(k.baseline))
          else AtTarget(g) && SealedRoot(k, g, tx.tree, tx.tree))
      && (v.Some? && v.value.onTarget ==> AtTarget(g))
      && (v.Some? && v.value.arrived ==> AtTarget(g) && Ref(g, Target) == tx.commit)
    case Integrated => AtTarget(g) && Ref(g, Target) == tx.commit && WorktreeKept(k, g, tx)
    case Completed =>
      && AtTarget(g) && Ref(g, Target) == tx.commit
      && (g.worktree.Some? ==> tx.commit.Some? && g.worktree == Some(Root(Detached(tx.commit.value), tx.tree, tx.tree)))
  }

  ghost predicate Undisturbed(k: Contract, s: State) {
    && Inv(k, s)
    && (k.inPlace ==> s.git.worktree.None?)
    && match s.record
       case None =>
         && SourceWaiting(k, s.git)
         && TaskRoot(k, s.git).Some?
         && TaskRoot(k, s.git).value.head == OnBranch(Task) && TaskRoot(k, s.git).value.index == BaseTree(k, s.git)
         && (s.view.Some? ==> TaskRoot(k, s.git).value.files == s.view.value.tx.tree && !s.view.value.aligned && !s.view.value.onTarget && !s.view.value.arrived)
       case Some(tx) => RootsFit(k, s.git, tx, s.view)
  }

  /** The executor's own steps, and a crash after any of them, keep the workspace recoverable. */
  lemma StepUndisturbed(k: Contract, s: State, op: Op, s': State)
    requires Undisturbed(k, s) && Step(k, s, op, s') && !op.Outside?
    ensures Undisturbed(k, s')
  {
    StepInv(k, s, op, s');
    StepGrows(k, s, op, s');
    match op
    case Work(w) => WorkUndisturbed(k, s, w, s');
    case Draft(_) =>
    case Begin =>
    case Resume =>
    case Stop =>
    case Outside(_) => assert false;
  }

  lemma WorkUndisturbed(k: Contract, s: State, w: Work, s': State)
    requires Undisturbed(k, s) && Step(k, s, Work(w), s') && Inv(k, s') && Grows(k, s.git, s'.git)
    ensures Undisturbed(k, s')
  {
    hide Undisturbed, Step, Inv, Grows;
    if Sealing(w) || w.AlignIndex? {
      SealingUndisturbed(k, s, w, s');
    } else if w.Advance? {
      AdvanceUndisturbed(k, s, s');
    } else if w.SwitchToTarget? || w.Merge? {
      MergeUndisturbed(k, s, w, s');
    } else if w.Verify? || w.ReadTarget? || w.OnTarget? || w.Arrive? {
      LookUndisturbed(k, s, w, s');
    } else {
      ClosingUndisturbed(k, s, w, s');
    }
  }

  lemma SealingUndisturbed(k: Contract, s: State, w: Work, s': State)
    requires Undisturbed(k, s) && Step(k, s, Work(w), s') && Inv(k, s') && Grows(k, s.git, s'.git)
    requires Sealing(w) || w.AlignIndex?
    ensures Undisturbed(k, s')
  {
    hide Ancestor, Acyclic, TaskRefSound, Authorized;
  }

  lemma AdvanceUndisturbed(k: Contract, s: State, s': State)
    requires Undisturbed(k, s) && Step(k, s, Work(Advance), s') && Inv(k, s')
    ensures Undisturbed(k, s')
  {
    hide Ancestor, Acyclic, Authorized;
  }

  lemma MergeUndisturbed(k: Contract, s: State, w: Work, s': State)
    requires Undisturbed(k, s) && Step(k, s, Work(w), s') && Inv(k, s') && (w.SwitchToTarget? || w.Merge?)
    ensures Undisturbed(k, s')
  {
    hide Ancestor, Acyclic, Authorized;
  }

  lemma LookUndisturbed(k: Contract, s: State, w: Work, s': State)
    requires Undisturbed(k, s) && Step(k, s, Work(w), s') && Inv(k, s')
    requires w.Verify? || w.ReadTarget? || w.OnTarget? || w.Arrive?
    ensures Undisturbed(k, s')
  {
    hide Ancestor, Acyclic, Authorized;
  }

  lemma ClosingUndisturbed(k: Contract, s: State, w: Work, s': State)
    requires Undisturbed(k, s) && Step(k, s, Work(w), s') && Inv(k, s')
    requires w.RemoveWorktree? || w.DetachWorktree? || w.DeleteTask? || w.RecordCompletion?
    ensures Undisturbed(k, s')
  {
    hide Ancestor, Acyclic, Authorized;
  }

  // ---------------------------------------------------------------- what the checks see when nobody interferes

  /** The workspace as it was prepared. */
  lemma CalmUnrecorded(k: Contract, s: State)
    requires Undisturbed(k, s) && s.record.None?
    ensures k.baseline in s.git.objects && TaskRoot(k, s.git).Some?
    ensures HeadCommit(s.git, TaskRoot(k, s.git).value) == Ref(s.git, Target) == Some(k.baseline)
    ensures !k.inPlace ==> AtTarget(s.git)
  {
  }

  lemma CalmRecorded(k: Contract, s: State)
    requires Undisturbed(k, s) && s.record.Some? && s.record.value.stage != Intent
    ensures s.record.value.commit.Some? && Realizes(s.git, s.record.value, s.record.value.commit.value)
  {
  }

  lemma CalmVerified(k: Contract, s: State)
    requires Undisturbed(k, s) && s.record.Some? && s.record.value.stage == Verified
    ensures Ref(s.git, Target) in {Some(k.baseline), s.record.value.commit}
    ensures !k.inPlace ==> s.git.worktree.Some?
  {
  }

  lemma CalmIntent(k: Contract, s: State)
    requires Undisturbed(k, s) && s.record.Some? && s.view.Some? && s.view.value.tx.stage == Intent
    ensures k.baseline in s.git.objects && TaskRoot(k, s.git).Some? && TaskRoot(k, s.git).value.head == OnBranch(Task)
    ensures Diff(BaseTree(k, s.git), TaskRoot(k, s.git).value.files) == s.view.value.tx.diff
    ensures Ref(s.git, Task).Some?
    ensures Ref(s.git, Task) != Some(k.baseline) ==>
              Ref(s.git, Task) == s.view.value.tx.commit && Realizes(s.git, s.view.value.tx, Ref(s.git, Task).value)
  {
  }

  /** A task root whose index was aligned with the commit on the task branch is clean. */
  lemma CalmAligned(k: Contract, s: State)
    requires Undisturbed(k, s) && s.record.Some? && s.view.Some? && s.view.value.tx.stage == Intent && s.view.value.aligned
    requires s.view.value.tx.commit.Some? && Ref(s.git, Task) == s.view.value.tx.commit
    ensures TaskRoot(k, s.git).Some? && Clean(s.git, TaskRoot(k, s.git).value)
  {
  }

  lemma CalmCommitted(k: Contract, s: State)
    requires Undisturbed(k, s) && s.record.Some? && s.record.value.stage == Committed
    ensures TaskRoot(k, s.git).Some? && Clean(s.git, TaskRoot(k, s.git).value)
    ensures HeadCommit(s.git, TaskRoot(k, s.git).value) == s.record.value.commit
  {
  }

  lemma CalmIntegrated(k: Contract, s: State)
    requires Undisturbed(k, s) && s.record.Some? && s.record.value.stage in {Integrated, Completed}
    ensures AtTarget(s.git) && HeadCommit(s.git, s.git.source) == s.record.value.commit == Ref(s.git, Target)
    ensures s.record.value.commit.Some?
  {
  }

  /** A worktree that outlives the transaction is detached at the commit. */
  lemma CalmCompleted(k: Contract, s: State)
    requires Undisturbed(k, s) && s.record.Some? && s.record.value.stage == Completed && s.git.worktree.Some?
    ensures s.record.value.commit.Some?
    ensures s.git.worktree == Some(Root(Detached(s.record.value.commit.value), s.record.value.tree, s.record.value.tree))
  {
  }

  /** The branch can be deleted: its commit is checked out in the source root, on the target. */
  lemma CalmDeletes(k: Contract, s: State)
    requires Undisturbed(k, s) && s.record.Some? && s.record.value.stage == Integrated && s.view.Some?
    requires Ref(s.git, Task).Some? && (s.git.worktree.Some? ==> s.git.worktree.value.head != OnBranch(Task))
    ensures GitAccepts(k, s.git, s.view, Work(DeleteTask))
  {
    CalmIntegrated(k, s);
  }

  predicate OnlyOurs(ops: seq<Op>) {
    forall i | 0 <= i < |ops| :: !ops[i].Outside?
  }

  /** Whatever sequence of crashes and restarts came before, the workspace is recoverable. */
  lemma {:induction false} RunUndisturbed(k: Contract, states: seq<State>, ops: seq<Op>, i: nat)
    requires IsRun(k, states, ops) && Undisturbed(k, states[0]) && i < |states| && OnlyOurs(ops)
    ensures Undisturbed(k, states[i])
  {
    hide Step, Undisturbed;
    if i > 0 {
      RunUndisturbed(k, states, ops, i - 1);
      assert StepAt(k, states, ops, i - 1);
      StepUndisturbed(k, states[i - 1], ops[i - 1], states[i]);
    }
  }

  /** As long as nothing is recorded, nothing has changed; and what is recorded, or about to be, is
      the tree that stood in the workspace at the start. */
  lemma {:induction false} RecordsWhatStood(k: Contract, states: seq<State>, ops: seq<Op>, i: nat)
    requires IsRun(k, states, ops) && i < |states| && OnlyOurs(ops)
    ensures states[i].record.None? ==> states[i].git == states[0].git
    ensures states[i].record.None? && states[i].view.Some? ==> Stood(k, states[0].git, states[i].view.value.tx)
    ensures states[i].record.Some? ==> Stood(k, states[0].git, states[i].record.value)
  {
    assert StepAt(k, states, ops, 0);
    if i > 0 {
      RecordsWhatStood(k, states, ops, i - 1);
      assert StepAt(k, states, ops, i - 1);
      RunInv(k, states, ops, i - 1);
      StepRecordForward(k, states[i - 1], ops[i - 1], states[i]);
    }
  }

  predicate Stood(k: Contract, g: Repo, tx: Transaction) {
    TaskRoot(k, g).Some? && tx.tree == TaskRoot(k, g).value.files
  }
}

/** The local commit transaction as a transition system over durable state (Git,
    the transaction record, the queue item) and the memory of the running executor.
    An operation is permitted by the protocol (Discipline, what the code checks and
    keeps) and accepted by Git at the moment it runs (GitAccepts). */
module CommitProtocol {
  import opened Options
  import opened Git

  /** SHA-256 of a worktree diff and of a candidate identity: injective constructors. */
  datatype Diff = Diff(base: Tree, files: Tree)
  datatype Candidate = Candidate(digest: nat, baseline: Commit, diff: Diff)

  datatype Stage = Intent | Committed | Verified | Integrated | Completed

  datatype Transaction = Transaction(
    stage: Stage, baseline: Commit, tree: Tree, diff: Diff, commit: Option<Commit>, digest: nat, candidate: Candidate)

  /** The approved contract and its workspace record, fixed for the whole transaction.
      accepted is the candidate named by the human acceptance request, if any. */
  datatype Contract = Contract(inPlace: bool, autoCommit: bool, digest: nat, baseline: Commit, accepted: Option<Candidate>)

  /** Memory of the running executor: its copy of the record and what this run has established. */
  datatype View = View(tx: Transaction, aligned: bool, verified: bool, saw: Option<Commit>, onTarget: bool, arrived: bool)

  datatype State = State(git: Repo, record: Option<Transaction>, completed: Option<Commit>, view: Option<View>)

  datatype Op =
    | Draft(tree: Tree)           // read the sealed candidate and build the intent in memory
    | Begin                       // persist INTENT
    | Resume                      // a recovery run loads the record
    | Work(work: Work)            // a step of an open transaction
    | Stop                        // crash, refusal or failed step: memory is lost
    | Outside(after: Repo)        // another writer

  datatype Work =
    | Adopt                       // take over a task commit that already realizes the intent
    | CommitTree(commit: Commit)  // git commit-tree
    | Persist                     // persist the commit id before the reference moves
    | MoveTask                    // git update-ref task commit baseline
    | AlignIndex                  // git update-index --index-info
    | Verify                      // verify-integration.sh succeeded
    | ReadTarget                  // git rev-parse target
    | SwitchToTarget              // git switch target, in place only
    | Merge                       // git merge --ff-only commit
    | OnTarget                    // the source root was seen on the target branch
    | Arrive                      // HEAD of the source root was seen at the commit
    | Advance                     // persist the next stage
    | RemoveWorktree              // git worktree remove
    | DetachWorktree              // git switch --detach commit, in the worktree
    | DeleteTask                  // git branch -d task
    | RecordCompletion            // item.completedCommit

  function Next(s: Stage): Stage {
    match s
    case Intent => Committed
    case Committed => Verified
    case Verified => Integrated
    case Integrated => Completed
    case Completed => Completed
  }

  function TaskRoot(k: Contract, g: Repo): Option<Root> {
    if k.inPlace then Some(g.source) else g.worktree
  }

  function WithTaskRoot(k: Contract, g: Repo, r: Root): Repo {
    if k.inPlace then g.(source := r) else g.(worktree := Some(r))
  }

  function BaseTree(k: Contract, g: Repo): Tree {
    if k.baseline in g.objects then g.objects[k.baseline].tree else 0
  }

  function Intention(k: Contract, g: Repo, tree: Tree): Transaction {
    var diff := Diff(BaseTree(k, g), tree);
    Transaction(Intent, k.baseline, tree, diff, None, k.digest, Candidate(k.digest, k.baseline, diff))
  }

  /** The commit recorded by a transaction is the sealed tree on top of the baseline. */
  predicate Realizes(g: Repo, tx: Transaction, c: Commit) {
    c in g.objects && g.objects[c] == Object(tx.tree, Some(tx.baseline))
  }

  predicate Authorized(k: Contract, tx: Transaction) {
    k.autoCommit || k.accepted == Some(tx.candidate)
  }

  /** What the protocol demands before an operation. It reads only what no outside
      writer can change, so it still holds if one intervenes. */
  predicate Discipline(k: Contract, s: State, op: Op) {
    match op
    case Draft(tree) => s.record.None? && s.view.None? && Authorized(k, Intention(k, s.git, tree))
    case Begin => s.record.None? && s.view.Some?
    case Resume => s.record.Some? && s.view.None?
    case Work(w) => s.record.Some? && s.view.Some? && WorkDiscipline(k, s.git, s.record.value, s.view.value, w)
    case Stop => true
    case Outside(_) => true
  }

  predicate WorkDiscipline(k: Contract, g: Repo, record: Transaction, v: View, w: Work) {
    var tx := v.tx;
    match w
    case Adopt => tx.stage == Intent && tx.commit.None? && Ref(g, Task).Some? && Ref(g, Task) != Some(k.baseline)
    case CommitTree(_) => tx.stage == Intent && tx.commit.None? && Ref(g, Task) == Some(k.baseline)
    case Persist => tx.stage == Intent && tx.commit.Some? && record.commit.None?
    case MoveTask => tx.stage == Intent && tx.commit.Some? && record == tx && Ref(g, Task) == Some(k.baseline)
    case AlignIndex => tx.stage == Intent && tx.commit.Some? && Ref(g, Task) == tx.commit
    case Verify => tx.stage == Committed
    case ReadTarget => tx.stage == Verified
    case SwitchToTarget => tx.stage == Verified && k.inPlace
    case Merge => tx.stage == Verified && record.stage == Verified && v.saw == Some(k.baseline)
    case OnTarget => tx.stage == Verified
    case Arrive => tx.stage == Verified && v.onTarget
    case Advance =>
      (match tx.stage
       case Intent => tx.commit.Some? && Ref(g, Task) == tx.commit && v.aligned
       case Committed => v.verified
       case Verified => v.arrived
       case Integrated => Ref(g, Task).None?
       case Completed => false)
    case RemoveWorktree => tx.stage == Integrated && !k.inPlace
    case DetachWorktree => tx.stage == Integrated && !k.inPlace
    case DeleteTask => tx.stage == Integrated
    case RecordCompletion => tx.stage == Completed
  }

  /** What Git itself demands, and what a read establishes, at the moment of the operation. */
  predicate GitAccepts(k: Contract, g: Repo, v: Option<View>, op: Op) {
    match op
    case Draft(tree) => TaskRoot(k, g).Some? && TaskRoot(k, g).value.files == tree && k.baseline in g.objects
    case Begin => true
    case Resume => true
    case Work(w) => v.Some? && GitAcceptsWork(k, g, v.value.tx, w)
    case Stop => true
    case Outside(_) => true
  }

  predicate Recorded(g: Repo, tx: Transaction) {
    tx.commit.Some? && tx.commit.value in g.objects
  }

  predicate GitAcceptsWork(k: Contract, g: Repo, tx: Transaction, w: Work) {
    match w
    case Adopt => Ref(g, Task).Some? && Realizes(g, tx, Ref(g, Task).value)
    case CommitTree(c) =>
      k.baseline in g.objects && (Realizes(g, tx, c) || (c !in g.objects && forall x | x in g.objects :: x < c))
    case MoveTask => Ref(g, Task) == Some(k.baseline)
    case AlignIndex => TaskRoot(k, g).Some?
    case SwitchToTarget => Clean(g, g.source) && Target in g.refs && g.refs[Target] in g.objects
    case Merge =>
      Recorded(g, tx) && g.source.head == OnBranch(Target) && Target in g.refs &&
      Ancestor(g.objects, g.refs[Target], tx.commit.value)
    case OnTarget => g.source.head == OnBranch(Target)
    case Arrive => tx.commit.Some? && HeadCommit(g, g.source) == tx.commit
    case RemoveWorktree => g.worktree.Some? && Clean(g, g.worktree.value)
    case DetachWorktree => Recorded(g, tx) && g.worktree.Some? && Clean(g, g.worktree.value)
    case DeleteTask =>
      && Task in g.refs && g.source.head != OnBranch(Task)
      && (g.worktree.Some? ==> g.worktree.value.head != OnBranch(Task))
      && HeadCommit(g, g.source).Some? && Ancestor(g.objects, g.refs[Task], HeadCommit(g, g.source).value)
    case Persist => true
    case Verify => true
    case ReadTarget => true
    case Advance => true
    case RecordCompletion => true
  }

  /** What the protocol demands of a step is out of the reach of outside writers. */
  lemma DisciplineStable(k: Contract, s: State, g: Repo, w: Work)
    requires Discipline(k, s, Work(w)) && OutsideMayChange(s.git, g)
    ensures Discipline(k, s.(git := g), Work(w))
  {
  }

  predicate Permitted(k: Contract, s: State, op: Op) {
    Discipline(k, s, op) && GitAccepts(k, s.git, s.view, op)
  }

  /** The effect of one permitted operation. */
  function Apply(k: Contract, s: State, op: Op): State
    requires Permitted(k, s, op)
  {
    match op
    case Draft(tree) => s.(view := Some(View(Intention(k, s.git, tree), false, false, None, false, false)))
    case Begin => s.(record := Some(s.view.value.tx))
    case Resume => s.(view := Some(View(s.record.value, false, false, None, false, false)))
    case Work(w) => ApplyWork(k, s, s.view.value, w)
    case Stop => s.(view := None)
    case Outside(after) => s.(git := after)
  }

  function ApplyWork(k: Contract, s: State, v: View, w: Work): State
    requires s.record.Some? && s.view == Some(v)
    requires WorkDiscipline(k, s.git, s.record.value, v, w) && GitAcceptsWork(k, s.git, v.tx, w)
  {
    var g, tx := s.git, v.tx;
    match w
    case Adopt => s.(view := Some(v.(tx := tx.(commit := Ref(g, Task)))))
    case CommitTree(c) =>
      s.(git := g.(objects := g.objects[c := Object(tx.tree, Some(k.baseline))]),
         view := Some(v.(tx := tx.(commit := Some(c)))))
    case Persist => s.(record := Some(tx))
    case MoveTask => s.(git := g.(refs := g.refs[Task := tx.commit.value]))
    case AlignIndex =>
      s.(git := WithTaskRoot(k, g, TaskRoot(k, g).value.(index := tx.tree)), view := Some(v.(aligned := true)))
    case Verify => s.(view := Some(v.(verified := true)))
    case ReadTarget => s.(view := Some(v.(saw := Ref(g, Target))))
    case SwitchToTarget =>
      var t := g.objects[g.refs[Target]].tree;
      s.(git := g.(source := Root(OnBranch(Target), t, t)))
    case Merge =>
      var t := g.objects[tx.commit.value].tree;
      s.(git := g.(refs := g.refs[Target := tx.commit.value], source := Root(OnBranch(Target), t, t)))
    case OnTarget => s.(view := Some(v.(onTarget := true)))
    case Arrive => s.(view := Some(v.(arrived := true)))
    case Advance =>
      var tx' := tx.(stage := Next(tx.stage));
      s.(record := Some(tx'), view := Some(v.(tx := tx')))
    case RemoveWorktree => s.(git := g.(worktree := None))
    case DetachWorktree =>
      var t := g.objects[tx.commit.value].tree;
      s.(git := g.(worktree := Some(Root(Detached(tx.commit.value), t, t))))
    case DeleteTask => s.(git := g.(refs := g.refs - {Task}))
    case RecordCompletion => s.(completed := tx.commit)
  }

  ghost predicate Step(k: Contract, s: State, op: Op, s': State) {
    && Permitted(k, s, op)
    && (op.Outside? ==> OutsideMayChange(s.git, op.after))
    && s' == Apply(k, s, op)
  }

  /** A prepared workspace: the task branch exists at the baseline and nothing is recorded. */
  ghost predicate Prepared(k: Contract, s: State) {
    && Acyclic(s.git.objects) && k.baseline in s.git.objects
    && s.record.None? && s.view.None? && s.completed.None?
    && Ref(s.git, Task) == Some(k.baseline)
  }

  ghost predicate StepAt(k: Contract, states: seq<State>, ops: seq<Op>, i: nat)
    requires |states| == |ops| + 1 && i <= |ops|
  {
    && (i == 0 ==> Prepared(k, states[0]))
    && (i < |ops| ==> Step(k, states[i], ops[i], states[i + 1]))
  }

  ghost predicate IsRun(k: Contract, states: seq<State>, ops: seq<Op>) {
    |states| == |ops| + 1 && forall i: nat | i <= |ops| :: StepAt(k, states, ops, i)
  }

  lemma ExtendRun(k: Contract, states: seq<State>, ops: seq<Op>, op: Op, next: State)
    requires IsRun(k, states, ops) && Step(k, states[|ops|], op, next)
    ensures IsRun(k, states + [next], ops + [op])
  {
    var states', ops' := states + [next], ops + [op];
    forall i: nat | i <= |ops'|
      ensures StepAt(k, states', ops', i)
    {
      if i <= |ops| {
        assert StepAt(k, states, ops, i);
      }
    }
  }

  // ---------------------------------------------------------------- invariant

  predicate TransactionSound(k: Contract, g: Repo, tx: Transaction) {
    && tx.baseline == k.baseline && tx.digest == k.digest
    && tx.diff == Diff(BaseTree(k, g), tx.tree)
    && tx.candidate == Candidate(k.digest, k.baseline, tx.diff)
    && Authorized(k, tx)
    && (tx.commit.Some? ==> Realizes(g, tx, tx.commit.value))
    && (tx.stage != Intent ==> tx.commit.Some?)
  }

  predicate TaskRefSound(k: Contract, g: Repo, tx: Transaction) {
    match tx.stage
    case Intent => Ref(g, Task) == Some(k.baseline) || (tx.commit.Some? && Ref(g, Task) == tx.commit)
    case Committed => Ref(g, Task) == tx.commit
    case Verified => Ref(g, Task) == tx.commit
    case Integrated => Ref(g, Task).None? || Ref(g, Task) == tx.commit
    case Completed => Ref(g, Task).None?
  }

  predicate ViewSound(k: Contract, s: State) {
    s.view.Some? ==>
      var tx := s.view.value.tx;
      && TransactionSound(k, s.git, tx)
      && if s.record.None? then tx.stage == Intent && tx.commit.None?
         else tx == s.record.value ||
              (tx.stage == Intent && s.record.value == tx.(commit := None) && Ref(s.git, Task) == Some(k.baseline))
  }

  ghost predicate Inv(k: Contract, s: State) {
    && Acyclic(s.git.objects) && k.baseline in s.git.objects
    && (if s.record.None? then Ref(s.git, Task) == Some(k.baseline)
        else TransactionSound(k, s.git, s.record.value) && TaskRefSound(k, s.git, s.record.value))
    && ViewSound(k, s)
    && (s.completed.Some? ==> s.record.Some? && s.record.value.stage == Completed && s.completed == s.record.value.commit)
  }

  lemma FastForwardable(g: Repo, tx: Transaction)
    requires Acyclic(g.objects) && tx.commit.Some? && Realizes(g, tx, tx.commit.value)
    ensures Ancestor(g.objects, tx.baseline, tx.commit.value)
  {
  }

  ghost predicate Grows(k: Contract, g: Repo, g': Repo) {
    && Acyclic(g'.objects)
    && forall c | c in g.objects :: c in g'.objects && g'.objects[c] == g.objects[c]
  }

  lemma SoundGrows(k: Contract, g: Repo, g': Repo, tx: Transaction)
    requires Grows(k, g, g') && k.baseline in g.objects && TransactionSound(k, g, tx)
    ensures TransactionSound(k, g', tx)
  {
  }

  lemma StepGrows(k: Contract, s: State, op: Op, s': State)
    requires Inv(k, s) && Step(k, s, op, s')
    ensures Grows(k, s.git, s'.git)
  {
    hide Ancestor, Clean, HeadCommit;
  }

  /** Every operation keeps the invariant, whoever performs it and wherever a crash falls. */
  lemma StepInv(k: Contract, s: State, op: Op, s': State)
    requires Inv(k, s) && Step(k, s, op, s')
    ensures Inv(k, s')
  {
    StepGrows(k, s, op, s');
    if s.record.Some? {
      SoundGrows(k, s.git, s'.git, s.record.value);
    }
    if s.view.Some? {
      SoundGrows(k, s.git, s'.git, s.view.value.tx);
    }
    match op
    case Work(w) => WorkInv(k, s, w, s');
    case Draft(_) =>
    case Begin =>
    case Resume =>
    case Stop =>
    case Outside(_) =>
  }

  /** The steps that bring the task branch to its commit. */
  predicate Sealing(w: Work) { w.Adopt? || w.CommitTree? || w.Persist? || w.MoveTask? }

  /** The steps that change neither the record, nor the executor's copy of it, nor the task branch. */
  predicate Quiet(w: Work) { !Sealing(w) && !w.Advance? && !w.DeleteTask? && !w.RecordCompletion? }

  lemma WorkInv(k: Contract, s: State, w: Work, s': State)
    requires Inv(k, s) && Step(k, s, Work(w), s') && Grows(k, s.git, s'.git)
    requires TransactionSound(k, s'.git, s.record.value) && TransactionSound(k, s'.git, s.view.value.tx)
    ensures Inv(k, s')
  {
    hide Inv, Step, Grows, TransactionSound, Sealing;
    if Quiet(w) {
      QuietInv(k, s, w, s');
    } else if Sealing(w) {
      SealingInv(k, s, w, s');
    } else {
      ClosingInv(k, s, w, s');
    }
  }

  lemma QuietStep(k: Contract, s: State, w: Work, s': State)
    requires Step(k, s, Work(w), s') && Quiet(w)
    ensures s.view.Some? && s.record.Some? && s'.view.Some? && s'.view.value.tx == s.view.value.tx
    ensures s'.record == s.record && s'.completed == s.completed && Ref(s'.git, Task) == Ref(s.git, Task)
    ensures s'.git.objects == s.git.objects
  {
    hide Ancestor, Acyclic, Clean, HeadCommit, Realizes;
  }

  lemma QuietInv(k: Contract, s: State, w: Work, s': State)
    requires Inv(k, s) && Step(k, s, Work(w), s') && Quiet(w)
    ensures Inv(k, s')
  {
    hide Step, Quiet, Acyclic;
    QuietStep(k, s, w, s');
  }

  lemma SealingInv(k: Contract, s: State, w: Work, s': State)
    requires Inv(k, s) && Step(k, s, Work(w), s') && Grows(k, s.git, s'.git) && Sealing(w)
    requires TransactionSound(k, s'.git, s.record.value) && TransactionSound(k, s'.git, s.view.value.tx)
    ensures Inv(k, s')
  {
    hide Ancestor, Clean, HeadCommit;
  }

  lemma ClosingInv(k: Contract, s: State, w: Work, s': State)
    requires Inv(k, s) && Step(k, s, Work(w), s') && !Quiet(w) && !Sealing(w)
    requires TransactionSound(k, s'.git, s.record.value) && TransactionSound(k, s'.git, s.view.value.tx)
    ensures Inv(k, s')
  {
    hide Ancestor, Clean, HeadCommit, Acyclic;
  }
}

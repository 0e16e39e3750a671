/** The executor itself: the straight-line program of a commit run, with a schedule of
    crashes and outside writers that can strike before any of its steps. */
module CommitExecutor {
  import opened Options
  import opened Git
  import opened CommitProtocol
  import CommitSafety
  import opened CommitRecovery

  datatype Event = Quiet | Crash | Change(after: Repo)
  datatype Outcome = Finished | Stopped

  /** Review and verification records consulted before an intent is persisted. */
  datatype Evidence = Evidence(ready: Diff, reviewed: Diff, approved: bool, exitCode: int, testsPassed: bool, paths: nat)

  predicate Usable(e: Evidence, diff: Diff) {
    diff == e.ready == e.reviewed && e.approved && e.exitCode == 0 && e.testsPassed && e.paths >= 3
  }

  /** The candidate now in the task root is the one reviewed, and its commit is authorized. */
  predicate Acceptable(e: Evidence, k: Contract, g: Repo) {
    && TaskRoot(k, g).Some?
    && Usable(e, Diff(BaseTree(k, g), TaskRoot(k, g).value.files))
    && Authorized(k, Intention(k, g, TaskRoot(k, g).value.files))
  }

  /** Everything a first run looks at before it persists an intent. */
  predicate Intendable(e: Evidence, k: Contract, g: Repo) {
    && Acceptable(e, k, g) && k.baseline in g.objects
    && HeadCommit(g, TaskRoot(k, g).value) == Ref(g, Target) == Some(k.baseline)
    && (!k.inPlace ==> g.source.head == OnBranch(Target) && Clean(g, g.source))
  }

  /** The identifier git commit-tree will return is that of a new object. */
  predicate Creatable(g: Repo, created: Commit) {
    forall c | c in g.objects :: c < created
  }

  /** Somebody else moved the target to a commit that is neither the baseline nor this transaction's. */
  predicate TakenByOthers(k: Contract, g: Repo, record: Option<Transaction>, created: Commit) {
    && Ref(g, Target) != Some(k.baseline) && Ref(g, Target) != Some(created) && Ref(g, Target).Some?
    && Ref(g, Target) != Ref(g, Task)
    && (record.Some? ==> record.value.commit != Ref(g, Target))
  }

  /** What a hand-off leaves of the worktree: nothing if clean-up was asked for, and otherwise the
      worktree, detached at the commit. Without a worktree there is nothing to do. */
  predicate Released(before: Option<Root>, after: Option<Root>, commit: Option<Commit>, cleanup: bool) {
    if before.None? || cleanup then after.None?
    else commit.Some? && after.Some? && after.value.head == Detached(commit.value)
  }

  /** What the schedule does before the next step: the repository then, whether the run is still alive, and
      what is left of the schedule. */
  function Disturbed(g: Repo, schedule: seq<Event>): (Repo, bool, seq<Event>)
    decreases |schedule|
  {
    if schedule == [] then (g, true, [])
    else
      match schedule[0]
      case Quiet => (g, true, schedule[1..])
      case Crash => (g, false, schedule[1..])
      case Change(after) => Disturbed(if OutsideMayChange(g, after) then after else g, schedule[1..])
  }

  predicate CrashOnly(schedule: seq<Event>) {
    forall i | 0 <= i < |schedule| :: !schedule[i].Change?
  }

  class Executor {
    const k: Contract
    var git: Repo
    var record: Option<Transaction>
    var completed: Option<Commit>
    var memory: Option<View>
    var schedule: seq<Event>
    ghost var states: seq<State>
    ghost var ops: seq<Op>
    ghost const start: State

    function Now(): State
      reads `git, `record, `completed, `memory
    {
      State(git, record, completed, memory)
    }

    /** The history so far is a run of the protocol that ends in the present state. */
    ghost predicate Valid()
      reads `git, `record, `completed, `memory, `states, `ops
    {
      IsRun(k, states, ops) && states[0] == start && states[|ops|] == Now()
    }

    /** Nobody else is about to interfere and nobody has. */
    ghost predicate Calm()
      reads this
    {
      schedule == [] && Undisturbed(k, Now())
    }

    /** Crashes are all that is scheduled, and all that ever interfered. */
    ghost predicate Alone()
      reads this
    {
      CrashOnly(schedule) && OnlyOurs(ops) && Undisturbed(k, start)
    }

    constructor (k: Contract, git: Repo, schedule: seq<Event>)
      requires Prepared(k, State(git, None, None, None))
      ensures Valid() && this.k == k && Now() == State(git, None, None, None) && this.schedule == schedule
      ensures ops == [] && start == Now()
    {
      this.k := k;
      this.git, this.record, this.completed, this.memory := git, None, None, None;
      this.schedule := schedule;
      this.start, this.states, this.ops := State(git, None, None, None), [State(git, None, None, None)], [];
    }

    method Do(op: Op)
      requires Valid() && Permitted(k, Now(), op)
      requires op.Outside? ==> OutsideMayChange(git, op.after)
      modifies this
      ensures Valid() && Now() == Apply(k, old(Now()), op)
      ensures ops == old(ops) + [op] && schedule == old(schedule)
      ensures old(Undisturbed(k, Now())) && !op.Outside? ==> Undisturbed(k, Now())
      ensures old(Alone()) && !op.Outside? ==> Alone()
    {
      hide Permitted, Apply, Undisturbed, OutsideMayChange;
      ghost var now := Now();
      var next := Apply(k, Now(), op);
      ExtendRun(k, states, ops, op, next);
      if Undisturbed(k, now) && !op.Outside? {
        StepUndisturbed(k, now, op, next);
      }
      git, record, completed, memory := next.git, next.record, next.completed, next.view;
      states, ops := states + [next], ops + [op];
    }

    /** Let scheduled outside writers act; a crash loses the memory of the run. */
    method Pause() returns (alive: bool)
      requires Valid()
      modifies this
      ensures Valid()
      ensures OutsideMayChange(old(git), git)
      ensures Now() == if alive then old(Now()).(git := git) else old(Now()).(git := git, view := None)
      ensures old(schedule) == [] ==> alive && Now() == old(Now()) && ops == old(ops) && schedule == []
      ensures (git, alive, schedule) == old(Disturbed(git, schedule))
      ensures old(Alone()) ==> Alone()
    {
      CommitSafety.RunInv(k, states, ops, |ops|);
      while schedule != []
        invariant Valid() && Now() == old(Now()).(git := git) && OutsideMayChange(old(git), git)
        invariant old(schedule) == [] ==> schedule == [] && Now() == old(Now()) && ops == old(ops)
        invariant Disturbed(git, schedule) == old(Disturbed(git, schedule))
        invariant old(Alone()) ==> Alone()
        decreases |schedule|
      {
        var event := schedule[0];
        schedule := schedule[1..];
        match event
        case Quiet => return true;
        case Crash => Do(Stop); return false;
        case Change(after) =>
          if OutsideMayChange(git, after) {
            Do(Outside(after));
          }
      }
      return true;
    }

    /** One step of the program: it happens unless a crash precedes it or Git refuses it. */
    method Perform(w: Work) returns (alive: bool, ghost at: State)
      requires Valid() && Discipline(k, Now(), Work(w))
      modifies this
      ensures Valid()
      ensures !alive ==> memory.None?
      ensures alive ==>
                && at == old(Now()).(git := at.git) && OutsideMayChange(old(git), at.git)
                && Permitted(k, at, Work(w)) && Now() == Apply(k, at, Work(w))
      ensures old(schedule) == [] ==> schedule == [] && (alive ==> at == old(Now()))
      ensures old(schedule) == [] && !alive ==> git == old(git)
      ensures old(Alone()) ==> Alone()
      ensures old(Calm()) ==> Calm()
      ensures old(schedule) == [] && GitAccepts(k, old(git), old(memory), Work(w)) ==> alive
    {
      hide Valid, Alone, Undisturbed, WorkDiscipline, Apply, GitAcceptsWork, Disturbed;
      alive := Pause();
      DisciplineStable(k, old(Now()), git, w);
      at := Now();
      if alive {
        if GitAccepts(k, git, memory, Work(w)) {
          Do(Work(w));
        } else {
          alive := GiveUp();
        }
      }
    }

    /** The run gives up: an invariant of the program failed. */
    method GiveUp() returns (alive: bool)
      requires Valid()
      modifies this
      ensures Valid() && !alive && Now() == old(Now()).(view := None) && schedule == old(schedule)
      ensures old(Alone()) ==> Alone()
      ensures old(Calm()) ==> Calm()
    {
      hide Valid, Alone;
      Do(Stop);
      return false;
    }

    /** The task root has to be there and clean. */
    method SeeClean() returns (alive: bool)
      requires Valid()
      modifies this
      ensures Valid() && alive == old(TaskRoot(k, git).Some? && Clean(git, TaskRoot(k, git).value))
      ensures Now() == if alive then old(Now()) else old(Now()).(view := None)
      ensures schedule == old(schedule)
      ensures old(Alone()) ==> Alone()
      ensures old(Calm()) ==> Calm()
    {
      hide Valid, Alone, Undisturbed, Clean;
      var root := TaskRoot(k, git);
      alive := root.Some? && Clean(git, root.value);
      if !alive {
        alive := GiveUp();
      }
    }

    predicate Open(stage: Stage)
      reads this
    {
      memory.Some? && record == Some(memory.value.tx) && record.value.stage == stage
    }

    /** Persist the intent. */
    method BeginTransaction() returns (alive: bool)
      requires Valid() && record.None? && memory.Some?
      modifies this
      ensures Valid()
      ensures if alive then memory == old(memory) && record == Some(memory.value.tx) else memory.None?
      ensures old(schedule) == [] ==> schedule == [] && alive && git == old(git)
      ensures old(Alone()) ==> Alone()
      ensures old(Calm()) ==> Calm()
    {
      hide Valid, Alone, Undisturbed, Disturbed;
      alive := Pause();
      if alive {
        Do(Begin);
      }
    }

    /** First run: check the reviewed candidate against baseline, target and acceptance,
        and persist the intent. */
    method Intend(e: Evidence) returns (alive: bool)
      requires Valid() && memory.None? && record.None?
      modifies this
      ensures Valid()
      ensures if alive then Open(Intent) && Usable(e, record.value.diff) && Authorized(k, record.value) else memory.None?
      ensures old(schedule) == [] ==> schedule == [] && git == old(git)
      ensures old(schedule) == [] && old(Ref(git, Target)) != Some(k.baseline) ==> !alive
      ensures old(schedule) == [] ==> (alive <==> Intendable(e, k, old(git)))
      ensures old(Alone()) ==> Alone()
      ensures old(Calm()) ==> Calm()
      ensures old(Calm()) && Acceptable(e, k, old(git)) ==> alive
    {
      hide Valid, Alone, Undisturbed, Clean, Disturbed;
      alive := Pause();
      if !alive {
        return;
      }
      if Calm() {
        CalmUnrecorded(k, Now());
      }
      var root := TaskRoot(k, git);
      if root.None? || k.baseline !in git.objects || HeadCommit(git, root.value) != Some(k.baseline) ||
         Ref(git, Target) != Some(k.baseline) ||
         (!k.inPlace && !(git.source.head == OnBranch(Target) && Clean(git, git.source))) {
        alive := GiveUp();
        return;
      }
      var tx := Intention(k, git, root.value.files);
      if tx.diff != e.ready || tx.diff != e.reviewed || !e.approved || e.exitCode != 0 || !e.testsPassed || e.paths < 3 {
        alive := GiveUp();
        return;
      }
      if !k.autoCommit && k.accepted != Some(tx.candidate) {
        alive := GiveUp();
        return;
      }
      Do(Draft(root.value.files));
      alive := BeginTransaction();
    }

    /** Create the commit object and persist its identifier. */
    method RecordCommit(created: Commit) returns (alive: bool)
      requires Valid() && Open(Intent) && memory.value.tx.commit.None? && Ref(git, Task) == Some(k.baseline)
      modifies this
      ensures Valid()
      ensures if alive then Open(Intent) && record.value.commit == Some(created) && Ref(git, Task) == Some(k.baseline) else memory.None?
      ensures old(schedule) == [] ==> schedule == [] && Ref(git, Target) == old(Ref(git, Target))
      ensures old(Alone()) ==> Alone()
      ensures old(Calm()) ==> Calm()
      ensures old(Calm()) && Creatable(old(git), created) ==> alive
    {
      hide Valid, Alone, Undisturbed, Ancestor, Acyclic;
      if Calm() {
        CalmIntent(k, Now());
      }
      ghost var at;
      alive, at := Perform(CommitTree(created));
      if alive {
        alive, at := Perform(Persist);
      }
    }

    /** The task branch still stands at the baseline: create the commit object, record it,
        then move the branch by compare-and-swap. */
    method Publish(created: Commit) returns (alive: bool)
      requires Valid() && Open(Intent) && Ref(git, Task) == Some(k.baseline)
      modifies this
      ensures Valid()
      ensures if alive then Open(Intent) && record.value.commit.Some? && Ref(git, Task) == record.value.commit else memory.None?
      ensures old(schedule) == [] ==> schedule == [] && Ref(git, Target) == old(Ref(git, Target))
      ensures alive && old(schedule) == [] ==> record.value.commit in {old(record).value.commit, Some(created)}
      ensures old(schedule) == [] && alive ==>
                var root := TaskRoot(k, old(git));
                root.Some? && root.value.head == OnBranch(Task) && Diff(BaseTree(k, old(git)), root.value.files) == old(memory).value.tx.diff
      ensures old(Alone()) ==> Alone()
      ensures old(Calm()) ==> Calm()
      ensures old(Calm()) && Creatable(old(git), created) ==> alive
    {
      hide Valid, Alone, Undisturbed;
      if Calm() {
        CalmIntent(k, Now());
      }
      var root := TaskRoot(k, git);
      if root.None? || root.value.head != OnBranch(Task) || Diff(BaseTree(k, git), root.value.files) != memory.value.tx.diff {
        alive := GiveUp();
        return;
      }
      if memory.value.tx.commit.None? {
        alive := RecordCommit(created);
        if !alive {
          return;
        }
      }
      ghost var at;
      alive, at := Perform(MoveTask);
    }

    /** Persist the next stage. */
    method PersistStage() returns (alive: bool)
      requires Valid() && Discipline(k, Now(), Work(Advance))
      modifies this
      ensures Valid()
      ensures if alive then Open(Next(old(memory).value.tx.stage)) && record.value.commit == old(memory).value.tx.commit else memory.None?
      ensures old(schedule) == [] ==> schedule == [] && alive && git == old(git)
      ensures old(Alone()) ==> Alone()
      ensures old(Calm()) ==> Calm()
    {
      hide Valid, Alone, Undisturbed, WorkDiscipline;
      ghost var at;
      alive, at := Perform(Advance);
    }

    /** Align the index with the commit and see the workspace clean. */
    method Align() returns (alive: bool)
      requires Valid() && record.Some? && memory.Some? && memory.value.tx.stage == Intent
      requires memory.value.tx.commit.Some? && Ref(git, Task) == memory.value.tx.commit
      modifies this
      ensures Valid()
      ensures if alive then record == old(record) && memory == Some(old(memory).value.(aligned := true)) else memory.None?
      ensures alive ==> Ref(git, Task) == old(Ref(git, Task))
      ensures old(schedule) == [] ==> schedule == [] && Ref(git, Target) == old(Ref(git, Target))
      ensures alive ==> TaskRoot(k, git).Some? && Clean(git, TaskRoot(k, git).value)
      ensures old(Alone()) ==> Alone()
      ensures old(Calm()) ==> Calm() && alive
    {
      hide Valid, Alone, Undisturbed, Clean, Disturbed;
      if Calm() {
        CalmIntent(k, Now());
      }
      ghost var at;
      alive, at := Perform(AlignIndex);
      if !alive {
        return;
      }
      alive := Pause();
      if !alive {
        return;
      }
      if Calm() {
        CalmAligned(k, Now());
      }
      alive := SeeClean();
    }

    /** Align the index with the commit, check the workspace, persist COMMITTED. */
    method Settle() returns (alive: bool)
      requires Valid() && record.Some? && memory.Some? && memory.value.tx.stage == Intent
      requires memory.value.tx.commit.Some? && Ref(git, Task) == memory.value.tx.commit
      modifies this
      ensures Valid()
      ensures if alive then Open(Committed) && record.value.commit == old(memory).value.tx.commit else memory.None?
      ensures old(schedule) == [] ==> schedule == [] && Ref(git, Target) == old(Ref(git, Target))
      ensures old(Alone()) ==> Alone()
      ensures old(Calm()) ==> Calm() && alive
    {
      hide Valid, Alone, Undisturbed, Clean;
      alive := Align();
      if alive {
        alive := PersistStage();
      }
    }

    /** INTENT to COMMITTED. */
    method CommitTask(created: Commit) returns (alive: bool)
      requires Valid() && Open(Intent)
      modifies this
      ensures Valid()
      ensures if alive then Open(Committed) else memory.None?
      ensures old(schedule) == [] ==> schedule == [] && Ref(git, Target) == old(Ref(git, Target))
      ensures alive && old(schedule) == [] ==>
                record.value.commit in {old(record).value.commit, Some(created), old(Ref(git, Task))}
      ensures old(Alone()) ==> Alone()
      ensures old(Calm()) ==> Calm()
      ensures old(Calm()) && Creatable(old(git), created) ==> alive
    {
      hide Valid, Alone, Undisturbed, Realizes, Disturbed;
      alive := Pause();
      if !alive {
        return;
      }
      if Calm() {
        CalmIntent(k, Now());
      }
      var tx := memory.value.tx;
      var head := Ref(git, Task);
      if head.None? {
        alive := GiveUp();
        return;
      }
      if head == Some(k.baseline) {
        alive := Publish(created);
        if !alive {
          return;
        }
      } else {
        if (tx.commit.Some? && tx.commit != head) || !Realizes(git, tx, head.value) {
          alive := GiveUp();
          return;
        }
        if tx.commit.None? {
          Do(Work(Adopt));
        }
      }
      alive := Settle();
    }

    /** The committed candidate is checked out, clean, and passes; and it is still clean afterwards. */
    method RunVerification(passes: bool) returns (alive: bool)
      requires Valid() && Open(Committed)
      modifies this
      ensures Valid()
      ensures if alive then record == old(record) && memory == Some(old(memory).value.(verified := true)) else memory.None?
      ensures old(schedule) == [] ==> schedule == [] && Ref(git, Target) == old(Ref(git, Target))
      ensures alive ==> passes && TaskRoot(k, git).Some? && Clean(git, TaskRoot(k, git).value)
      ensures old(schedule) == [] ==>
                (alive <==>
                  var root := TaskRoot(k, old(git));
                  passes && root.Some? && HeadCommit(old(git), root.value) == old(record).value.commit && Clean(old(git), root.value))
      ensures old(Alone()) ==> Alone()
      ensures old(Calm()) ==> Calm() && alive == passes
    {
      hide Valid, Alone, Undisturbed, Clean, HeadCommit, Disturbed;
      alive := Pause();
      if !alive {
        return;
      }
      if Calm() {
        CalmCommitted(k, Now());
      }
      var root := TaskRoot(k, git);
      if root.None? || HeadCommit(git, root.value) != memory.value.tx.commit || !Clean(git, root.value) || !passes {
        alive := GiveUp();
        return;
      }
      ghost var at;
      alive, at := Perform(Verify);
      if !alive {
        return;
      }
      if Calm() {
        CalmCommitted(k, Now());
      }
      alive := SeeClean();
    }

    /** COMMITTED to VERIFIED: the committed candidate passes verify-integration.sh. */
    method VerifyCandidate(passes: bool) returns (alive: bool)
      requires Valid() && Open(Committed)
      modifies this
      ensures Valid()
      ensures if alive then Open(Verified) && record.value.commit == old(record).value.commit else memory.None?
      ensures old(schedule) == [] ==> schedule == [] && Ref(git, Target) == old(Ref(git, Target))
      ensures old(Alone()) ==> Alone()
      ensures old(Calm()) ==> Calm() && alive == passes
    {
      hide Valid, Alone, Undisturbed;
      alive := RunVerification(passes);
      if alive {
        alive := PersistStage();
      }
    }

    /** In place, the source root is still on the task branch: switch it to the target. */
    method LeaveTaskBranch() returns (alive: bool)
      requires Valid() && Open(Verified) && k.inPlace
      modifies this
      ensures Valid()
      ensures if alive then Open(Verified) && record == old(record) && memory == old(memory) else memory.None?
      ensures old(schedule) == [] ==> schedule == [] && Ref(git, Target) == old(Ref(git, Target)) && git.worktree == old(git).worktree
      ensures old(schedule) == [] && alive ==> Clean(old(git), old(git).source) && old(git).source.head in {OnBranch(Task), OnBranch(Target)}
      ensures old(schedule) == [] && alive ==> git.source.head == OnBranch(Target)
      ensures old(Alone()) ==> Alone()
      ensures old(Calm()) ==> Calm() && alive && AtTarget(git)
    {
      hide Valid, Alone;
      if !Clean(git, git.source) || (git.source.head != OnBranch(Task) && git.source.head != OnBranch(Target)) {
        alive := GiveUp();
        return;
      }
      if git.source.head == OnBranch(Target) {
        return true;
      }
      ghost var at;
      alive, at := Perform(SwitchToTarget);
    }

    /** Bring the source root onto the target branch, clean. */
    method ReachTargetBranch() returns (alive: bool)
      requires Valid() && Open(Verified)
      modifies this
      ensures Valid()
      ensures if alive then Open(Verified) && record == old(record) && memory.value.onTarget && memory.value.saw == old(memory).value.saw
              else memory.None?
      ensures old(schedule) == [] ==> schedule == [] && Ref(git, Target) == old(Ref(git, Target)) && git.worktree == old(git).worktree
      ensures alive ==> git.source.head == OnBranch(Target) && Clean(git, git.source)
      ensures old(Alone()) ==> Alone()
      ensures old(Calm()) ==> Calm() && alive
    {
      hide Valid, Alone, Disturbed;
      if k.inPlace {
        alive := LeaveTaskBranch();
        if !alive {
          return;
        }
      }
      alive := Pause();
      if !alive {
        return;
      }
      if git.source.head != OnBranch(Target) || !Clean(git, git.source) {
        alive := GiveUp();
        return;
      }
      Do(Work(OnTarget));
    }

    /** With the source root on the target branch: fast-forward it unless it is already there. */
    method FastForward(current: Option<Commit>) returns (alive: bool)
      requires Valid() && Open(Verified) && memory.value.onTarget && memory.value.saw == current
      requires current == Some(k.baseline) || current == memory.value.tx.commit
      modifies this
      ensures Valid()
      ensures if alive then Open(Verified) && record == old(record) && memory == old(memory) else memory.None?
      ensures old(schedule) == [] ==> schedule == [] && git.worktree == old(git).worktree
      ensures old(Alone()) ==> Alone()
      ensures old(Calm()) ==> Calm()
      ensures old(Calm()) && current == old(Ref(git, Target)) ==> alive && Ref(git, Target) == record.value.commit
    {
      hide Valid, Alone;
      if current == memory.value.tx.commit {
        return true;
      }
      ghost var at;
      if Calm() {
        FastForwardable(git, memory.value.tx);
      }
      alive, at := Perform(Merge);
    }

    /** See the commit checked out, persist INTEGRATED. */
    method ConfirmArrival() returns (alive: bool)
      requires Valid() && Open(Verified) && memory.value.onTarget
      modifies this
      ensures Valid()
      ensures if alive then Open(Integrated) && record.value.commit == old(record).value.commit else memory.None?
      ensures old(schedule) == [] ==> schedule == [] && git.worktree == old(git).worktree
      ensures old(Alone()) ==> Alone()
      ensures old(Calm()) ==> Calm()
      ensures old(Calm()) && old(Ref(git, Target)) == old(record).value.commit ==> alive
    {
      hide Valid, Alone, Clean, Disturbed;
      alive := Pause();
      if !alive {
        return;
      }
      if memory.value.tx.commit.None? || HeadCommit(git, git.source) != memory.value.tx.commit {
        alive := GiveUp();
        return;
      }
      Do(Work(Arrive));
      alive := PersistStage();
    }

    /** VERIFIED to INTEGRATED, if the target still stands at the baseline or has the commit already. */
    method MoveTarget() returns (alive: bool)
      requires Valid() && Open(Verified)
      modifies this
      ensures Valid()
      ensures if alive then Open(Integrated) && record.value.commit == old(record).value.commit else memory.None?
      ensures old(schedule) == [] ==> schedule == [] && git.worktree == old(git).worktree
      ensures old(schedule) == [] && old(Ref(git, Target)) != Some(k.baseline) && old(Ref(git, Target)) != old(record).value.commit ==>
                !alive && Ref(git, Target) == old(Ref(git, Target))
      ensures old(Alone()) ==> Alone()
      ensures old(Calm()) ==> Calm() && alive
    {
      hide Valid, Alone, Undisturbed, Disturbed;
      alive := Pause();
      if !alive {
        return;
      }
      if Calm() {
        CalmVerified(k, Now());
      }
      var current := Ref(git, Target);
      Do(Work(ReadTarget));
      if current != Some(k.baseline) && current != memory.value.tx.commit {
        alive := GiveUp();
        return;
      }
      alive := ReachTargetBranch();
      if !alive {
        return;
      }
      alive := FastForward(current);
      if alive {
        alive := ConfirmArrival();
      }
    }

    /** Remove the worktree, or leave it detached at the commit. */
    method ReleaseWorktree(cleanup: bool) returns (alive: bool)
      requires Valid() && Open(Integrated) && !k.inPlace && git.worktree.Some?
      modifies this
      ensures Valid()
      ensures if alive then Open(Integrated) && record == old(record) else memory.None?
      ensures old(schedule) == [] ==> schedule == [] && Ref(git, Target) == old(Ref(git, Target))
      ensures old(schedule) == [] && alive ==> Released(old(git).worktree, git.worktree, record.value.commit, cleanup)
      ensures old(Alone()) ==> Alone()
      ensures old(Calm()) ==> Calm() && alive
    {
      hide Valid, Alone;
      if !Clean(git, git.worktree.value) {
        alive := GiveUp();
        return;
      }
      ghost var at;
      if cleanup {
        alive, at := Perform(RemoveWorktree);
      } else {
        alive, at := Perform(DetachWorktree);
      }
    }

    method DeleteBranch() returns (alive: bool)
      requires Valid() && Open(Integrated)
      modifies this
      ensures Valid()
      ensures if alive then record == old(record) && memory == old(memory) && Ref(git, Task).None? else memory.None?
      ensures old(schedule) == [] ==> schedule == [] && Ref(git, Target) == old(Ref(git, Target)) && git.worktree == old(git).worktree
      ensures old(Alone()) ==> Alone()
      ensures old(Calm()) ==> Calm()
      ensures old(Calm()) && (old(git).worktree.Some? ==> old(git).worktree.value.head != OnBranch(Task)) ==> alive
    {
      hide Valid, Alone, Undisturbed, GitAcceptsWork, Disturbed;
      alive := Pause();
      if !alive || Ref(git, Task).None? {
        return;
      }
      if Calm() && (git.worktree.Some? ==> git.worktree.value.head != OnBranch(Task)) {
        CalmDeletes(k, Now());
      }
      ghost var at;
      alive, at := Perform(DeleteTask);
    }

    /** Delete the task branch if it is still there, then persist COMPLETED. */
    method RetireBranch() returns (alive: bool)
      requires Valid() && Open(Integrated)
      modifies this
      ensures Valid()
      ensures if alive then Open(Completed) && record.value.commit == old(record).value.commit else memory.None?
      ensures old(schedule) == [] ==> schedule == [] && Ref(git, Target) == old(Ref(git, Target)) && git.worktree == old(git).worktree
      ensures old(Alone()) ==> Alone()
      ensures old(Calm()) ==> Calm()
      ensures old(Calm()) && (old(git).worktree.Some? ==> old(git).worktree.value.head != OnBranch(Task)) ==> alive
    {
      hide Valid, Alone, Undisturbed;
      alive := DeleteBranch();
      if alive {
        alive := PersistStage();
      }
    }

    /** INTEGRATED to COMPLETED. */
    method HandOff(cleanup: bool) returns (alive: bool)
      requires Valid() && Open(Integrated)
      modifies this
      ensures Valid()
      ensures if alive then Open(Completed) && record.value.commit == old(record).value.commit else memory.None?
      ensures old(schedule) == [] ==> schedule == [] && Ref(git, Target) == old(Ref(git, Target))
      ensures old(schedule) == [] && alive && !k.inPlace ==> Released(old(git).worktree, git.worktree, record.value.commit, cleanup)
      ensures alive && old(schedule) == [] ==> old(Ref(git, Target)) == old(record).value.commit && Clean(old(git), old(git).source)
      ensures old(Alone()) ==> Alone()
      ensures old(Calm()) ==> Calm() && alive
    {
      hide Valid, Alone;
      if Ref(git, Target) != memory.value.tx.commit || !Clean(git, git.source) {
        alive := GiveUp();
        return;
      }
      if !k.inPlace && git.worktree.Some? {
        alive := ReleaseWorktree(cleanup);
        if !alive {
          return;
        }
      }
      alive := RetireBranch();
    }

    /** Does the durable record match the contract and workspace of this item? */
    predicate RecordMatches()
      reads this
    {
      && record.Some?
      && record.value.digest == k.digest && record.value.baseline == k.baseline
      && record.value.candidate == Candidate(k.digest, k.baseline, record.value.diff)
    }

    /** Load the record in a recovery run, or persist a fresh intent in a first run. */
    method OpenTransaction(recovery: bool, e: Evidence) returns (alive: bool)
      requires Valid() && memory.None?
      modifies this
      ensures Valid()
      ensures if alive then memory.Some? && record == Some(memory.value.tx) else memory.None?
      ensures alive ==> recovery == old(record).Some?
      ensures alive && !recovery ==> record.value.stage == Intent
      ensures old(record).Some? ==> record == old(record)
      ensures old(schedule) == [] ==> schedule == [] && git == old(git)
      ensures old(schedule) == [] && old(record).None? && old(Ref(git, Target)) != Some(k.baseline) ==> !alive
      ensures old(Alone()) ==> Alone()
      ensures old(Calm()) ==> Calm()
      ensures old(Calm()) ==>
                alive == if recovery then old(record).Some? else old(record).None? && Acceptable(e, k, old(git))
    {
      hide Valid, Alone, Disturbed;
      alive := Pause();
      if !alive {
        return;
      }
      if record.Some? {
        if !recovery || !RecordMatches() {
          alive := GiveUp();
          return;
        }
        Do(Resume);
      } else if recovery {
        alive := GiveUp();
      } else {
        alive := Intend(e);
      }
    }

    /** The recorded commit is the sealed tree on the baseline. */
    predicate CommitMatches()
      reads this
    {
      memory.Some? && memory.value.tx.commit.Some? && Realizes(git, memory.value.tx, memory.value.tx.commit.value)
    }

    /** The transaction is open and its commit is on the task branch. */
    method HaveCommit(recovery: bool, e: Evidence, created: Commit) returns (alive: bool)
      requires Valid() && memory.None?
      modifies this
      ensures Valid()
      ensures if alive then memory.Some? && Open(memory.value.tx.stage) && record.value.stage != Intent && record.value.commit.Some?
              else memory.None?
      ensures old(schedule) == [] ==> schedule == [] && Ref(git, Target) == old(Ref(git, Target))
      ensures old(schedule) == [] && TakenByOthers(k, old(git), old(record), created) && alive ==>
                Ref(git, Target) != Some(k.baseline) && Ref(git, Target) != record.value.commit
      ensures old(schedule) == [] && old(record).Some? && old(record).value.stage != Intent ==> git == old(git) && record == old(record)
      ensures alive && (old(record).None? || old(record).value.stage == Intent) ==> record.value.stage == Committed
      ensures old(Alone()) ==> Alone()
      ensures old(Calm()) ==> Calm()
      ensures old(Calm()) && Creatable(old(git), created) && recovery && old(record).Some? ==> alive
      ensures old(Calm()) && Creatable(old(git), created) && !recovery && old(record).None? && Acceptable(e, k, old(git)) ==> alive
    {
      hide Valid, Alone, Undisturbed, Realizes, Acceptable;
      alive := OpenTransaction(recovery, e);
      if alive && memory.value.tx.stage == Intent {
        alive := CommitTask(created);
      }
      if !alive {
        return;
      }
      if Calm() {
        CalmRecorded(k, Now());
      }
      if !CommitMatches() {
        alive := GiveUp();
      }
    }

    /** One whole run of the commit transaction, first or recovery. Without interference it
        finishes from wherever earlier runs were cut off, with the target at the commit. */
    method Integrate(recovery: bool, e: Evidence, created: Commit, passes: bool, cleanup: bool) returns (out: Outcome)
      requires Valid() && memory.None?
      modifies this
      ensures Valid() && memory.None?
      ensures out.Finished? ==>
                && record.Some? && record.value.stage == Completed && record.value.commit.Some?
                && completed == record.value.commit && Ref(git, Task).None?
      ensures old(Alone()) ==> Alone()
      ensures old(Calm()) ==> Calm()
      ensures old(Calm()) && recovery && old(record).Some? && Creatable(old(git), created) && passes ==>
                out.Finished? && Ref(git, Target) == completed && AtTarget(git)
      ensures old(Calm()) && !recovery && old(record).None? && Acceptable(e, k, old(git)) && Creatable(old(git), created) && passes ==>
                out.Finished? && Ref(git, Target) == completed && AtTarget(git)
      ensures old(schedule) == [] && TakenByOthers(k, old(git), old(record), created) ==>
                out.Stopped? && Ref(git, Target) == old(Ref(git, Target))
      ensures old(schedule) == [] && old(record).Some? && old(record).value.stage == Completed ==>
                git == old(git) && record == old(record)
      ensures old(Calm()) && out.Finished? && !k.inPlace && old(git).worktree.Some? && !(old(record).Some? && old(record).value.stage == Completed) ==>
                Released(old(git).worktree, git.worktree, completed, cleanup)
      ensures old(Calm()) && out.Finished? && git.worktree.Some? ==>
                git.worktree == Some(Root(Detached(completed.value), record.value.tree, record.value.tree))
    {
      hide Valid, Alone, Undisturbed, Realizes, Acceptable, TakenByOthers, Creatable;
      var alive := HaveCommit(recovery, e, created);
      if !alive {
        return Stopped;
      }
      if memory.value.tx.stage == Committed {
        alive := VerifyCandidate(passes);
      }
      if alive && memory.value.tx.stage == Verified && Calm() {
        CalmVerified(k, Now());
      }
      if alive && memory.value.tx.stage == Verified {
        alive := MoveTarget();
      }
      if alive {
        alive := Conclude(cleanup);
      }
      return if alive then Finished else Stopped;
    }

    /** The queue item gets the recorded commit, and the run ends. */
    method CompleteItem() returns (alive: bool)
      requires Valid() && Open(Completed)
      modifies this
      ensures Valid() && memory.None?
      ensures alive ==> record == old(record) && record.value.commit.Some? && completed == record.value.commit && Ref(git, Task).None?
      ensures old(schedule) == [] ==> schedule == [] && alive && git == old(git)
      ensures old(Alone()) ==> Alone()
      ensures old(Calm()) ==> Calm()
    {
      hide Alone, Undisturbed;
      ghost var at;
      alive, at := Perform(RecordCompletion);
      if alive {
        CommitSafety.RunInv(k, states, ops, |ops|);
        Do(Stop);
      }
    }

    /** Final checks, hand-off and completion of the queue item. */
    method Conclude(cleanup: bool) returns (alive: bool)
      requires Valid() && memory.Some? && record == Some(memory.value.tx)
      requires record.value.stage in {Integrated, Completed} && record.value.commit.Some?
      modifies this
      ensures Valid() && memory.None?
      ensures alive ==> record.Some? && record.value.stage == Completed && record.value.commit.Some? && completed == record.value.commit
      ensures alive ==> Ref(git, Task).None?
      ensures old(schedule) == [] ==> schedule == [] && Ref(git, Target) == old(Ref(git, Target))
      ensures old(schedule) == [] && old(Ref(git, Target)) != old(record).value.commit ==> !alive
      ensures old(schedule) == [] && old(record).value.stage == Completed ==> git == old(git) && record == old(record)
      ensures old(schedule) == [] && alive && old(record).value.stage == Integrated && !k.inPlace ==>
                Released(old(git).worktree, git.worktree, completed, cleanup)
      ensures old(Calm()) && alive && git.worktree.Some? ==>
                git.worktree == Some(Root(Detached(completed.value), record.value.tree, record.value.tree))
      ensures alive && old(schedule) == [] ==>
                && old(git).source.head == OnBranch(Target) && HeadCommit(old(git), old(git).source) == old(record).value.commit
                && Clean(old(git), old(git).source)
      ensures old(Alone()) ==> Alone()
      ensures old(Calm()) ==> Calm() && alive && Ref(git, Target) == completed && AtTarget(git)
    {
      hide Valid, Alone, Undisturbed, Clean, Disturbed;
      alive := Pause();
      if !alive {
        return;
      }
      if Calm() {
        CalmIntegrated(k, Now());
      }
      if git.source.head != OnBranch(Target) || HeadCommit(git, git.source) != memory.value.tx.commit || !Clean(git, git.source) {
        alive := GiveUp();
        return;
      }
      if memory.value.tx.stage == Integrated {
        alive := HandOff(cleanup);
        if !alive {
          return;
        }
      }
      alive := CompleteItem();
      if alive && Calm() {
        CalmIntegrated(k, Now());
        if git.worktree.Some? {
          CalmCompleted(k, Now());
        }
      }
    }
  }

  // ---------------------------------------------------------------- crashes, and then one recovery

  /** One run of the program, cut off wherever its schedule says. */
  datatype Attempt = Attempt(schedule: seq<Event>, recovery: bool, evidence: Evidence, created: Commit, passes: bool, cleanup: bool)

  /** An identifier that no object has yet. */
  method NewIdentifier(g: Repo) returns (created: Commit)
    ensures Creatable(g, created)
  {
    created := 0;
    var rest := g.objects.Keys;
    while rest != {}
      invariant rest <= g.objects.Keys && forall c | c in g.objects && c !in rest :: c < created
      decreases rest
    {
      var c :| c in rest;
      created := if c < created then created else c + 1;
      rest := rest - {c};
    }
  }

  /** What completion leaves: the target at one commit, the tree that stood in the workspace on the
      baseline, the task branch gone, and a worktree, if one is left, detached at the commit. */
  ghost predicate Integrated(x: Executor, k: Contract, g: Repo)
    reads x
  {
    && x.record.Some? && x.record.value.stage == Completed && x.completed.Some? && x.completed == x.record.value.commit
    && Ref(x.git, Target) == x.completed && Ref(x.git, Task) == None && AtTarget(x.git)
    && TaskRoot(k, g).Some? && x.completed.value in x.git.objects
    && x.git.objects[x.completed.value] == Object(TaskRoot(k, g).value.files, Some(k.baseline))
    && (x.git.worktree.Some? ==>
          x.git.worktree == Some(Root(Detached(x.completed.value), TaskRoot(k, g).value.files, TaskRoot(k, g).value.files)))
  }

  /** From every crash point: after any number of attempts that crash anywhere, fail their
      verification, give up or finish, one undisturbed run completes the transaction. */
  method CrashThenRecover(k: Contract, git: Repo, attempts: seq<Attempt>, e: Evidence, cleanup: bool) returns (x: Executor)
    requires Prepared(k, State(git, None, None, None)) && Undisturbed(k, State(git, None, None, None))
    requires Acceptable(e, k, git) && forall i | 0 <= i < |attempts| :: CrashOnly(attempts[i].schedule)
    ensures Integrated(x, k, git) && x.Valid() && OnlyOurs(x.ops)
    ensures attempts == [] && !k.inPlace ==> (x.git.worktree.None? <==> cleanup)
  {
    x := new Executor(k, git, []);
    for i := 0 to |attempts|
      invariant x.Valid() && x.memory.None? && x.Alone() && x.k == k && x.start == State(git, None, None, None)
      invariant fresh(x) && (i == 0 ==> x.Now() == x.start)
    {
      var a := attempts[i];
      x.schedule := a.schedule;
      var _ := x.Integrate(a.recovery, a.evidence, a.created, a.passes, a.cleanup);
    }
    x.schedule := [];
    RecoverableNow(x);
    var created := NewIdentifier(x.git);
    var _ := x.Integrate(x.record.Some?, e, created, true, cleanup);
    CompletedCommit(x);
  }

  lemma RecoverableNow(x: Executor)
    requires x.Valid() && x.Alone()
    ensures Undisturbed(x.k, x.Now()) && (x.record.None? ==> x.git == x.start.git)
  {
    RunUndisturbed(x.k, x.states, x.ops, |x.ops|);
    RecordsWhatStood(x.k, x.states, x.ops, |x.ops|);
  }

  lemma CompletedCommit(x: Executor)
    requires x.Valid() && x.Alone() && x.record.Some? && x.record.value.commit.Some?
    ensures TaskRoot(x.k, x.start.git).Some? && x.record.value.commit.value in x.git.objects
    ensures x.git.objects[x.record.value.commit.value] == Object(TaskRoot(x.k, x.start.git).value.files, Some(x.k.baseline))
    ensures x.record.value.tree == TaskRoot(x.k, x.start.git).value.files
  {
    CommitSafety.RunInv(x.k, x.states, x.ops, |x.ops|);
    RecordsWhatStood(x.k, x.states, x.ops, |x.ops|);
  }
}

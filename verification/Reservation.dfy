/** The scheduler's decision: what the reservation loop does with one candidate, and which
    candidate it therefore takes, stated without the loop. */
module Reservation {
  import opened Options
  import opened QueueModel

  /** Take it, leave it untouched, leave it marked, or stop with a public fault. */
  datatype Verdict = Take | Skip | Mark(item: Item) | Halt

  predicate IsAbort(i: Item) { Requests(i, AbortTask) }

  predicate IsRetry(i: Item) { i.request.None? && i.status == Blocked && i.recovery.Some? }

  /** An item enters the loop with its waiting reason cleared, except one parked on a precondition. */
  function Cleared(i: Item): Item {
    if i.status == WaitingPrecondition then i else i.(waiting := None)
  }

  function FirstOf(a: Option<Reason>, b: Option<Reason>): Option<Reason> {
    if a.Some? then a else b
  }

  /** Why an automatic retry has to wait. */
  function RetryObstacle(scan: Scan, i: Item): Option<Reason> {
    if !IsRetry(i) then None
    else if scan.now >= i.recovery.value.deadline then Some(BudgetExhausted)
    else if i.recovery.value.nextRunAt.None? || scan.now < i.recovery.value.nextRunAt.value then Some(Backoff)
    else if i.seal.run != i.runId || i.seal.diff.None? then Some(NotSealed)
    else None
  }

  /** Why the repository, or its policy, has no place for a candidate. */
  function PlaceObstacle(fixed: Option<Item>, scan: Scan, i: Item): Option<Reason> {
    var c := i.contract;
    if fixed.Some? && fixed.value.contract.key != c.key then Some(Behind(fixed.value.contract.taskId))
    else if c.autoCommit && scan.strategy == Isolated && !(c.approved == Isolated && IsolatedAutoAuthorized(i)) then
      Some(AutoCommitUnsupported)
    else if Continuous(i) && c.approved != scan.strategy then Some(PolicyChanged)
    else None
  }

  /** What a candidate that nobody asked for waits for. */
  function UnpromptedObstacle(items: seq<Item>, scan: Scan, i: Item): Option<Reason> {
    var c := i.contract;
    if i.request.Some? then None
    else if c.notBefore.Some? && c.notBefore.value > scan.now then Some(Scheduled)
    else if MissingDependency(items, c.dependsOn).Some? then Some(NeedsDependency(MissingDependency(items, c.dependsOn).value))
    else if !IsRetry(i) && scan.strategy == Isolated && (scan.retained >= scan.maxWorkspaces || scan.bytes >= scan.maxBytes) then
      Some(Capacity)
    else None
  }

  function AuthorityObstacle(scan: Scan, i: Item): Option<Reason> {
    if !IsAbort(i) && !Authorized(i) then Some(NotAuthorized)
    else if scan.lease.Some? && scan.lease.value != i.contract.taskId then Some(Leased(scan.lease.value))
    else None
  }

  /** The first reason, in the order of the code, for which a candidate has to wait. */
  function Obstacle(items: seq<Item>, fixed: Option<Item>, scan: Scan, i: Item): Option<Reason> {
    FirstOf(RetryObstacle(scan, i), FirstOf(PlaceObstacle(fixed, scan, i), FirstOf(UnpromptedObstacle(items, scan, i), AuthorityObstacle(scan, i))))
  }

  /** Mark a waiting candidate; an exhausted retry budget also cancels its next wake. */
  function Waiting(i: Item, why: Reason): Item {
    var recovery := if why == BudgetExhausted && i.recovery.Some? then Some(i.recovery.value.(nextRunAt := None)) else i.recovery;
    i.(waiting := Some(why), recovery := recovery)
  }

  /** Park an unstarted contract on a failed precondition, unless that same failure is recorded. */
  function Parked(i: Item, r: Readiness): Item {
    if i.precondition == Some(r.fingerprint) then i
    else i.(precondition := Some(r.fingerprint), status := WaitingPrecondition, waiting := Some(Precondition(r.fingerprint)))
  }

  predicate NeedsReadiness(i: Item) { i.request.None? && !IsRetry(i) }

  function Decide(items: seq<Item>, fixed: Option<Item>, scope: Option<Scope>, scan: Scan, item: Item): Verdict {
    if !ScopeAllows(scope, item.contract.key, IsAbort(item), scan.now) then Skip
    else if scope.Some? && item.contract.schema < 6 then Mark(Waiting(item, ScopeNeedsSupervision))
    else if !IsAbort(item) && !scan.unitTests then Halt
    else
      var why := Obstacle(items, fixed, scan, item);
      if why.Some? then Mark(Waiting(Cleared(item), why.value))
      else if NeedsReadiness(item) && !scan.ready(item.contract.key).ok then
        Mark(Parked(Cleared(item), scan.ready(item.contract.key)))
      else Take
  }

  /** The first dependency that is not completed. */
  method FindMissing(items: seq<Item>, deps: seq<TaskId>) returns (r: Option<TaskId>)
    ensures r == MissingDependency(items, deps)
  {
    var n := 0;
    while n < |deps|
      invariant n <= |deps| && MissingDependency(items, deps) == MissingDependency(items, deps[n..])
    {
      if !(exists i | 0 <= i < |items| :: items[i].contract.taskId == deps[n] && items[i].status == Completed) {
        return Some(deps[n]);
      }
      n := n + 1;
    }
    return None;
  }

  method CheckRetry(scan: Scan, i: Item) returns (why: Option<Reason>)
    requires i.request.None? && i.status == Blocked && i.recovery.Some?
    ensures why == RetryObstacle(scan, i)
  {
    var recovery := i.recovery.value;
    if scan.now >= recovery.deadline {
      return Some(BudgetExhausted);
    }
    if recovery.nextRunAt.None? || scan.now < recovery.nextRunAt.value {
      return Some(Backoff);
    }
    if i.seal.run != i.runId || i.seal.diff.None? {
      return Some(NotSealed);
    }
    return None;
  }

  method CheckPlace(fixed: Option<Item>, scan: Scan, i: Item) returns (why: Option<Reason>)
    ensures why == PlaceObstacle(fixed, scan, i)
  {
    var c := i.contract;
    if fixed.Some? && fixed.value.contract.key != c.key {
      return Some(Behind(fixed.value.contract.taskId));
    }
    if c.autoCommit && scan.strategy == Isolated &&
       !(c.approved == Isolated && i.strategy == Isolated && c.schema == 8 && c.isolatedAuto) {
      return Some(AutoCommitUnsupported);
    }
    if c.schema == 8 && c.approved != scan.strategy {
      return Some(PolicyChanged);
    }
    return None;
  }

  method CheckUnprompted(items: seq<Item>, scan: Scan, i: Item) returns (why: Option<Reason>)
    ensures why == UnpromptedObstacle(items, scan, i)
  {
    var c, retry := i.contract, i.request.None? && i.status == Blocked && i.recovery.Some?;
    if i.request.None? && c.notBefore.Some? && c.notBefore.value > scan.now {
      return Some(Scheduled);
    }
    var dependency := FindMissing(items, c.dependsOn);
    if dependency.Some? && i.request.None? {
      return Some(NeedsDependency(dependency.value));
    }
    if i.request.None? && !retry && scan.strategy == Isolated &&
       (scan.retained >= scan.maxWorkspaces || scan.bytes >= scan.maxBytes) {
      return Some(Capacity);
    }
    return None;
  }

  method CheckAuthority(scan: Scan, i: Item) returns (why: Option<Reason>)
    ensures why == AuthorityObstacle(scan, i)
  {
    var c, abort := i.contract, i.request.Some? && i.request.value.kind == AbortTask;
    if !abort {
      if i.revoked || !i.intact {
        return Some(NotAuthorized);
      }
      if i.strategy == Isolated && c.autoCommit && !(c.approved == Isolated && c.schema == 8 && c.isolatedAuto) {
        return Some(NotAuthorized);
      }
    }
    if scan.lease.Some? && scan.lease.value != c.taskId {
      return Some(Leased(scan.lease.value));
    }
    return None;
  }

  method FindObstacle(items: seq<Item>, fixed: Option<Item>, scan: Scan, i: Item) returns (why: Option<Reason>)
    ensures why == Obstacle(items, fixed, scan, i)
  {
    hide PlaceObstacle, UnpromptedObstacle, AuthorityObstacle;
    why := None;
    if i.request.None? && i.status == Blocked && i.recovery.Some? {
      why := CheckRetry(scan, i);
    }
    if why.None? {
      why := CheckPlace(fixed, scan, i);
    }
    if why.None? {
      why := CheckUnprompted(items, scan, i);
    }
    if why.None? {
      why := CheckAuthority(scan, i);
    }
  }

  /** The body of the loop for one candidate, in the order of the code. */
  method Judge(items: seq<Item>, fixed: Option<Item>, scope: Option<Scope>, scan: Scan, candidate: Item) returns (v: Verdict)
    ensures v == Decide(items, fixed, scope, scan, candidate)
  {
    hide RetryObstacle, PlaceObstacle, UnpromptedObstacle, AuthorityObstacle, FirstOf;
    ObstacleOfCleared(items, fixed, scan, candidate);
    var item := candidate;
    var key, abort := item.contract.key, item.request.Some? && item.request.value.kind == AbortTask;
    if scope.Some? && !(key in scope.value.keys && scan.now < if abort then scope.value.cleanupExpires else scope.value.expires) {
      return Skip;
    }
    if scope.Some? && item.contract.schema < 6 {
      return Mark(item.(waiting := Some(ScopeNeedsSupervision)));
    }
    if !abort && !scan.unitTests {
      return Halt;
    }
    if item.status != WaitingPrecondition {
      item := item.(waiting := None);
    }
    var why := FindObstacle(items, fixed, scan, item);
    if why == Some(BudgetExhausted) && item.recovery.Some? {
      item := item.(recovery := Some(item.recovery.value.(nextRunAt := None)));
    }
    if why.Some? {
      return Mark(item.(waiting := why));
    }
    if item.request.None? && !(item.status == Blocked && item.recovery.Some?) {
      var readiness := scan.ready(key);
      if !readiness.ok {
        if item.precondition != Some(readiness.fingerprint) {
          item := item.(precondition := Some(readiness.fingerprint), status := WaitingPrecondition,
                        waiting := Some(Precondition(readiness.fingerprint)));
        }
        return Mark(item);
      }
    }
    return Take;
  }

  /** The displayed reason has no part in the checks. */
  lemma ObstacleOfCleared(items: seq<Item>, fixed: Option<Item>, scan: Scan, i: Item)
    ensures Obstacle(items, fixed, scan, Cleared(i)) == Obstacle(items, fixed, scan, i)
  {
  }

  /** What a visit may change in an item that is not taken. */
  predicate MarkedFrom(a: Item, b: Item) {
    && b == a.(waiting := b.waiting, recovery := b.recovery, status := b.status, precondition := b.precondition)
    && (b.status == a.status || (Unstarted(a.status) && b.status == WaitingPrecondition))
    && (b.recovery.Some? <==> a.recovery.Some?)
  }

  ghost predicate AllMarkedFrom(items: seq<Item>, items': seq<Item>) {
    |items'| == |items| && forall i | 0 <= i < |items| :: MarkedFrom(items[i], items'[i])
  }

  function Left(item: Item, v: Verdict): Item {
    if v.Mark? then v.item else item
  }

  lemma VisitMarks(items: seq<Item>, fixed: Option<Item>, scope: Option<Scope>, scan: Scan, item: Item, paused: bool)
    requires Tier(item, paused).Some?
    requires item.request.Some? ==> !Unstarted(item.status)
    ensures MarkedFrom(item, Left(item, Decide(items, fixed, scope, scan, item)))
  {
    hide Obstacle, ScopeAllows;
  }

  lemma {:induction false} MarkingKeepsDependencies(items: seq<Item>, items': seq<Item>, deps: seq<TaskId>)
    requires AllMarkedFrom(items, items')
    ensures MissingDependency(items', deps) == MissingDependency(items, deps)
  {
    if deps != [] {
      var t := deps[0];
      if TaskCompleted(items, t) {
        var i :| 0 <= i < |items| && items[i].contract.taskId == t && items[i].status == Completed;
        assert MarkedFrom(items[i], items'[i]);
      }
      if TaskCompleted(items', t) {
        var i :| 0 <= i < |items'| && items'[i].contract.taskId == t && items'[i].status == Completed;
        assert MarkedFrom(items[i], items'[i]);
      }
      MarkingKeepsDependencies(items, items', deps[1..]);
    }
  }

  /** Marking earlier candidates never changes what the loop decides about a later one. */
  lemma MarkingKeepsDecisions(items: seq<Item>, items': seq<Item>, fixed: Option<Item>, scope: Option<Scope>,
                              scan: Scan, item: Item)
    requires AllMarkedFrom(items, items')
    ensures Decide(items', fixed, scope, scan, item) == Decide(items, fixed, scope, scan, item)
  {
    hide AllMarkedFrom, MissingDependency, ScopeAllows, Parked;
    MarkingKeepsDependencies(items, items', item.contract.dependsOn);
  }

  // ---------------------------------------------------------------- the choice

  predicate Stops(v: Verdict) { v.Take? || v.Halt? }

  function DecideAt(items: seq<Item>, scope: Option<Scope>, scan: Scan, i: nat): Verdict
    requires i < |items|
  {
    Decide(items, Fixed(items), scope, scan, items[i])
  }

  /** How far the loop gets: the first position of the order at which it stops, or its end. */
  function StopAt(items: seq<Item>, scope: Option<Scope>, scan: Scan, order: seq<nat>): (n: nat)
    requires Indexes(items, order)
    ensures n <= |order|
    ensures forall m | 0 <= m < n :: !Stops(DecideAt(items, scope, scan, order[m]))
    ensures n < |order| ==> Stops(DecideAt(items, scope, scan, order[n]))
  {
    if order == [] || Stops(DecideAt(items, scope, scan, order[0])) then 0
    else
      var n := StopAt(items, scope, scan, order[1..]);
      assert forall m | 0 <= m < n :: order[m + 1] == order[1..][m];
      assert forall m | 0 < m < n + 1 :: order[m] == order[1..][m - 1];
      n + 1
  }

  /** Everything a reservation promises about the run it grants, in no particular order. */
  predicate MayRun(items: seq<Item>, scope: Option<Scope>, scan: Scan, i: Item) {
    var c, unprompted, retry := i.contract, i.request.None?, IsRetry(i);
    // authority
    && ScopeAllows(scope, c.key, IsAbort(i), scan.now) && (scope.Some? ==> c.schema >= 6)
    && (IsAbort(i) || (scan.unitTests && Authorized(i)))
    // the repository
    && (Fixed(items).Some? ==> Fixed(items).value.contract.key == c.key)
    && (scan.lease.Some? ==> scan.lease.value == c.taskId)
    // the workspace strategy
    && (c.autoCommit && scan.strategy == Isolated ==> c.approved == Isolated && IsolatedAutoAuthorized(i))
    && (Continuous(i) ==> c.approved == scan.strategy)
    // what nobody asked for explicitly waits for its time, its predecessors and room
    && (unprompted && c.notBefore.Some? ==> c.notBefore.value <= scan.now)
    && (unprompted ==> forall t | t in c.dependsOn :: TaskCompleted(items, t))
    && (unprompted && !retry ==> scan.ready(c.key).ok)
    && (unprompted && !retry && scan.strategy == Isolated ==> scan.retained < scan.maxWorkspaces && scan.bytes < scan.maxBytes)
    // an automatic retry is due, within its budget, of a candidate sealed by the last run
    && (retry ==> i.recovery.value.nextRunAt.Some? && i.recovery.value.nextRunAt.value <= scan.now < i.recovery.value.deadline)
    && (retry ==> i.seal.run == i.runId && i.seal.diff.Some?)
  }

  /** The order of the checks only decides which reason is shown. */
  lemma TakenMayRun(items: seq<Item>, scope: Option<Scope>, scan: Scan, x: nat)
    requires x < |items|
    ensures DecideAt(items, scope, scan, x).Take? <==> MayRun(items, scope, scan, items[x])
  {
  }

  // ---------------------------------------------------------------- who may start, and who goes first

  /** A request may start, in a paused queue an abort alone; otherwise so may a contract that has not
      started, and a blocked one whose recovery has scheduled a retry. */
  predicate MayStart(i: Item, paused: bool) {
    if i.request.Some? then !paused || i.request.value.kind == AbortTask
    else !paused && (i.status in {Queued, WaitingPrecondition} ||
                     (i.status == Blocked && i.contract.schema >= 5 && i.recovery.Some? && i.recovery.value.nextRunAt.Some?))
  }

  /** Requests go before retries, and those before pending contracts; among these the higher priority goes
      first, and otherwise what was enqueued first. */
  predicate GoesFirst(a: Item, b: Item) {
    if a.request.Some? || b.request.Some? then
      a.request.Some? && (b.request.Some? ==> a.contract.sequence < b.contract.sequence)
    else if a.status == Blocked || b.status == Blocked then
      a.status == Blocked && (b.status == Blocked ==> a.contract.sequence < b.contract.sequence)
    else a.priority > b.priority || (a.priority == b.priority && a.contract.sequence < b.contract.sequence)
  }

  lemma TiersAre(a: Item, b: Item, paused: bool)
    ensures Tier(a, paused).Some? <==> MayStart(a, paused)
    ensures MayStart(a, paused) && MayStart(b, paused) ==> (Precedes(a, b, paused) <==> GoesFirst(a, b))
  {
  }

  /** An item may be reserved now: it is a candidate and nothing makes it wait. */
  predicate Eligible(items: seq<Item>, paused: bool, scope: Option<Scope>, scan: Scan, i: nat)
    requires i < |items|
  {
    Tier(items[i], paused).Some? && MayRun(items, scope, scan, items[i])
  }

  /** With unit tests enabled, what the loop takes was eligible. */
  lemma TakesOnlyEligible(items: seq<Item>, paused: bool, scope: Option<Scope>, scan: Scan)
    requires Identified(items) && scan.unitTests
    ensures var order := Candidates(items, paused); var n := StopAt(items, scope, scan, order);
            n < |order| ==> Eligible(items, paused, scope, scan, order[n])
  {
    hide Decide, Precedes, Candidates, MayRun;
    CandidatesOrdered(items, paused);
    var order := Candidates(items, paused);
    var n := StopAt(items, scope, scan, order);
    if n < |order| {
      NeverHalts(items, scope, scan, order[n]);
      TakenMayRun(items, scope, scan, order[n]);
    }
  }

  /** If any item j is eligible the loop takes an item, and that item is j or precedes j:
      taking nothing means that no item is eligible. */
  lemma TakesFirstEligible(items: seq<Item>, paused: bool, scope: Option<Scope>, scan: Scan, j: nat)
    requires Identified(items) && scan.unitTests && j < |items| && Eligible(items, paused, scope, scan, j)
    ensures var order := Candidates(items, paused); var n := StopAt(items, scope, scan, order);
            n < |order| && (j == order[n] || Precedes(items[order[n]], items[j], paused))
  {
    hide Decide, Precedes, Candidates, MayRun;
    CandidatesOrdered(items, paused);
    TakenMayRun(items, scope, scan, j);
    FirstOfOrder(items, paused, scope, scan, Candidates(items, paused), j);
  }

  lemma NeverHalts(items: seq<Item>, scope: Option<Scope>, scan: Scan, i: nat)
    requires scan.unitTests && i < |items|
    ensures !DecideAt(items, scope, scan, i).Halt?
  {
  }

  lemma FirstOfOrder(items: seq<Item>, paused: bool, scope: Option<Scope>, scan: Scan, order: seq<nat>, j: nat)
    requires Ordered(items, paused, order) && j in order && j < |items| && DecideAt(items, scope, scan, j).Take?
    ensures var n := StopAt(items, scope, scan, order);
            n < |order| && (j == order[n] || Precedes(items[order[n]], items[j], paused))
  {
    hide Decide, Precedes;
    var n := StopAt(items, scope, scan, order);
    var a :| 0 <= a < |order| && order[a] == j;
    assert n <= a;
  }

  /** Without unit tests only an approved abort can run; the first other candidate in scope
      raises the fault. */
  lemma OnlyAbortsWithoutUnitTests(items: seq<Item>, paused: bool, scope: Option<Scope>, scan: Scan)
    requires !scan.unitTests
    ensures var order := Candidates(items, paused); var n := StopAt(items, scope, scan, order);
            n < |order| && DecideAt(items, scope, scan, order[n]).Take? ==> IsAbort(items[order[n]])
  {
  }
}

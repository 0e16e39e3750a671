/** The durable queue with its one execution slot, shared by a scheduler, detached workers,
    supervisors and command-line callers. Each method is one locked transaction on the
    document, or one event of the process table; callers may interleave them in any order. */
module TaskQueue {
  import opened Options
  import opened QueueModel
  import opened Reservation

  function Find(items: seq<Item>, key: Key): (r: Option<nat>)
    ensures r.Some? ==> r.value < |items| && items[r.value].contract.key == key
    ensures r.None? ==> forall i | 0 <= i < |items| :: items[i].contract.key != key
  {
    if items == [] then None
    else if items[|items| - 1].contract.key == key then Some(|items| - 1)
    else Find(items[..|items| - 1], key)
  }

  predicate Listed(items: seq<Item>, key: Key) {
    exists i | 0 <= i < |items| :: items[i].contract.key == key
  }

  /** A draft may be enqueued if its key is new, no other version of its task is still approved,
      and every dependency has been approved. */
  predicate Enqueueable(items: seq<Item>, draft: Contract) {
    !Listed(items, draft.key) && OneVersion(items, draft) && DependenciesApproved(items, draft)
  }

  predicate OneVersion(items: seq<Item>, draft: Contract) {
    forall i | 0 <= i < |items| && items[i].contract.taskId == draft.taskId :: items[i].status in {Cancelled, Superseded}
  }

  predicate DependenciesApproved(items: seq<Item>, draft: Contract) {
    forall t | t in draft.dependsOn :: Approved(items, t)
  }

  predicate Approved(items: seq<Item>, t: TaskId) {
    exists i | 0 <= i < |items| :: items[i].contract.taskId == t && items[i].status != Cancelled
  }

  // ---------------------------------------------------------------- workspace exclusion

  predicate Occupies(run: Option<Run>, i: Item) {
    run.Some? && run.value.key == i.contract.key
  }

  /** An item has a claim on the repository while it holds a workspace or owns the slot. */
  predicate Claims(run: Option<Run>, i: Item) {
    Holder(i) || Occupies(run, i)
  }

  /** Two claims can only coexist in isolated worktrees. */
  predicate Exclusive(items: seq<Item>, run: Option<Run>) {
    forall i, j | 0 <= i < j < |items| && Claims(run, items[i]) && Claims(run, items[j]) ::
      items[i].strategy == Isolated && items[j].strategy == Isolated
  }

  predicate Unprompted(k: Kind) { k in {Execute, RetryBaseline} }

  /** Bookkeeping of one item: what its recorded fields imply about each other. */
  predicate Sound(run: Option<Run>, i: Item) {
    && (i.request.Some? ==> i.root.Some? && i.request.value.kind !in {Execute, RetryBaseline})
    && (Unstarted(i.status) ==> i.root.None?)
    && (i.recovery.Some? ==> i.root.Some?)
    && (if Occupies(run, i) then
          && (Unprompted(run.value.kind) || Requests(i, run.value.kind))
          && (i.request.Some? ==> i.request.value.kind in {run.value.kind, AbortTask})
          && (Unprompted(run.value.kind) && Terminal(i.status) ==> i.contract.autoCommit)
          && (run.value.outcome.Some? ==> MayReport(run.value, i, run.value.outcome.value))
        else i.request.Some? && Terminal(i.status) ==> i.contract.autoCommit)
  }

  /** The states a run can report: completion needs an automatic commit or an explicit commit
      run, abortion an abort run, and a contract without workspace is the only unstarted one. */
  predicate MayReport(run: Run, i: Item, s: Status) {
    && (Terminal(s) ==> (s == Completed && (i.contract.autoCommit || run.kind in {Integrate, Recover})) ||
                        (s == Aborted && run.kind == AbortTask))
    && (Unstarted(s) ==> i.root.None?)
  }

  lemma UpdateKeepsExclusive(items: seq<Item>, run: Option<Run>, x: nat, item: Item)
    requires x < |items| && Exclusive(items, run)
    requires item.contract == items[x].contract && item.strategy == items[x].strategy
    requires Claims(run, item) ==> Claims(run, items[x])
    ensures Exclusive(items[x := item], run)
  {
  }

  /** What the document keeps true of its items. */
  ghost predicate Consistent(items: seq<Item>, run: Option<Run>, sequence: nat) {
    && Identified(items)
    && (forall i | 0 <= i < |items| :: items[i].contract.sequence <= sequence && Sound(run, items[i]))
    && Exclusive(items, run)
    && (run.Some? ==> Listed(items, run.value.key))
  }

  lemma MarksKeep(items: seq<Item>, items': seq<Item>, run: Option<Run>, sequence: nat)
    requires AllMarkedFrom(items, items') && Consistent(items, run, sequence)
    ensures Consistent(items', run, sequence)
  {
  }

  lemma UpdateKeepsListed(items: seq<Item>, x: nat, item: Item)
    requires x < |items| && item.contract == items[x].contract
    ensures forall key :: Listed(items, key) ==> Listed(items[x := item], key)
    ensures Identified(items) ==> Identified(items[x := item])
  {
    forall key | Listed(items, key)
      ensures Listed(items[x := item], key)
    {
      var i :| 0 <= i < |items| && items[i].contract.key == key;
      assert items[x := item][i].contract.key == key;
    }
  }

  lemma AppendKeeps(items: seq<Item>, run: Option<Run>, item: Item)
    requires Exclusive(items, run) && !Holder(item) && !Listed(items, item.contract.key)
    requires run.Some? ==> Listed(items, run.value.key)
    ensures Exclusive(items + [item], run)
    ensures run.Some? ==> Listed(items + [item], run.value.key) && run.value.key != item.contract.key
  {
    var items' := items + [item];
    if run.Some? {
      var i :| 0 <= i < |items| && items[i].contract.key == run.value.key;
      assert items'[i].contract.key == run.value.key;
      assert items[i].contract.key != item.contract.key;
    }
    forall i, j | 0 <= i < j < |items'| && Claims(run, items'[i]) && Claims(run, items'[j])
      ensures items'[i].strategy == Isolated && items'[j].strategy == Isolated
    {
      assert j < |items|;
    }
  }

  /** The kind of run a taken candidate gets. */
  function KindOf(i: Item): Kind {
    if i.request.Some? then i.request.value.kind else if IsRetry(i) then RetryBaseline else Execute
  }

  /** The item as a reservation leaves it when it takes it. */
  function Granted(item: Item, scan: Scan, id: RunId): Item {
    var kind := KindOf(item);
    var i := if NeedsReadiness(item) then item.(precondition := None, waiting := None) else Cleared(item);
    var recovery := if i.recovery.Some? && kind in {RetryBaseline, ResumeTask} then Some(i.recovery.value.(nextRunAt := None)) else i.recovery;
    i.(recovery := recovery, runId := Some(id), seal := i.seal.(run := None),
       strategy := if kind == Execute then scan.strategy else i.strategy,
       status := if kind == Execute then Claimed else i.status)
  }

  /** Why giving the slot to a taken candidate keeps claims apart, late requests included. */
  lemma TakeKeepsExclusive(items: seq<Item>, scope: Option<Scope>, scan: Scan, paused: bool, x: nat, run: Run)
    requires Identified(items) && Exclusive(items, None) && x < |items|
    requires forall i | 0 <= i < |items| :: Sound(None, items[i])
    requires forall i | 0 <= i < |items| && Holder(items[i]) :: items[i].strategy == scan.strategy
    requires Tier(items[x], paused).Some? && DecideAt(items, scope, scan, x).Take?
    requires run.key == items[x].contract.key && run.kind == KindOf(items[x]) && run.outcome.None?
    ensures Exclusive(items[x := Granted(items[x], scan, run.id)], Some(run))
    ensures Sound(Some(run), Granted(items[x], scan, run.id))
  {
    hide Decide, Tier, MayRun, Sound, Granted, Fixed;
    TakenMayRun(items, scope, scan, x);
    GrantedSound(items[x], scan, paused, run);
    var item := Granted(items[x], scan, run.id);
    assert item.contract == items[x].contract by {
      GrantedSame(items[x], scan, run.id);
    }
    forall i | 0 <= i < |items| && i != x && Claims(Some(run), items[i])
      ensures items[i].strategy == item.strategy == Isolated
    {
      OthersIsolated(items, scope, scan, x, i);
      GrantedIsolated(items, scope, scan, paused, x, run.id);
    }
  }

  lemma GrantedSame(item: Item, scan: Scan, id: RunId)
    ensures Granted(item, scan, id).contract == item.contract
  {
  }

  /** Whoever else holds a workspace does so in isolation: one in place would be in front of the candidate. */
  lemma OthersIsolated(items: seq<Item>, scope: Option<Scope>, scan: Scan, x: nat, i: nat)
    requires Identified(items) && Exclusive(items, None) && x < |items| && i < |items| && i != x && Holder(items[i])
    requires MayRun(items, scope, scan, items[x])
    ensures items[i].strategy == Isolated
  {
    if items[i].strategy == InPlace {
      assert items[i] in items && Fixed(items).Some?;
      var y :| 0 <= y < |items| && items[y] == Fixed(items).value;
      assert y == x;
      assert Claims(None, items[x]) && Claims(None, items[i]);
    }
  }

  /** Then the candidate gets a workspace in isolation, or has one, or had one until its late abort. */
  lemma GrantedIsolated(items: seq<Item>, scope: Option<Scope>, scan: Scan, paused: bool, x: nat, id: RunId)
    requires x < |items| && Sound(None, items[x]) && Tier(items[x], paused).Some? && MayRun(items, scope, scan, items[x])
    requires scan.strategy == Isolated && (Holder(items[x]) ==> items[x].strategy == Isolated)
    ensures Granted(items[x], scan, id).strategy == Isolated
  {
    hide Fixed, TaskCompleted;
  }

  lemma GrantedSound(item: Item, scan: Scan, paused: bool, run: Run)
    requires Sound(None, item) && Tier(item, paused).Some?
    requires run.key == item.contract.key && run.kind == KindOf(item) && run.outcome.None?
    ensures Sound(Some(run), Granted(item, scan, run.id))
  {
  }

  /** The same, with the candidates before it marked. */
  lemma GrantKeeps(before: seq<Item>, items: seq<Item>, scope: Option<Scope>, scan: Scan, paused: bool,
                   sequence: nat, x: nat, run: Run)
    requires Consistent(before, None, sequence) && x < |before|
    requires forall i | 0 <= i < |before| && Holder(before[i]) :: before[i].strategy == scan.strategy
    requires Tier(before[x], paused).Some? && DecideAt(before, scope, scan, x).Take?
    requires run.key == before[x].contract.key && run.kind == KindOf(before[x]) && run.outcome.None?
    requires AllMarkedFrom(before, items) && items[x] == before[x]
    ensures Consistent(items[x := Granted(before[x], scan, run.id)], Some(run), sequence)
  {
    TakeKeepsExclusive(before, scope, scan, paused, x, run);
    var item := Granted(before[x], scan, run.id);
    var granted, granted' := before[x := item], items[x := item];
    UpdateKeepsListed(before, x, item);
    assert granted[x].contract.key == run.key;
    forall i | 0 <= i < |granted|
      ensures Sound(Some(run), granted[i]) && granted[i].contract.sequence <= sequence
      ensures MarkedFrom(granted[i], granted'[i])
    {
      assert Sound(None, before[i]) && MarkedFrom(before[i], items[i]);
      if i != x {
        assert before[i].contract.key != before[x].contract.key;
      }
    }
    MarksKeep(granted, granted', Some(run), sequence);
  }

  /** The items after the loop has visited the first n candidates without stopping. */
  function MarkedUpTo(before: seq<Item>, scope: Option<Scope>, scan: Scan, order: seq<nat>, n: nat): seq<Item>
    requires n <= |order|
  {
    seq(|before|, j requires 0 <= j < |before| =>
      if j in order[..n] then Left(before[j], DecideAt(before, scope, scan, j)) else before[j])
  }

  /** What holds before the loop visits the n-th candidate. */
  ghost predicate Sweeping(before: seq<Item>, items: seq<Item>, paused: bool, scope: Option<Scope>, scan: Scan,
                           order: seq<nat>, n: nat)
    requires Ordered(before, paused, order)
  {
    n <= StopAt(before, scope, scan, order) && items == MarkedUpTo(before, scope, scan, order, n) && AllMarkedFrom(before, items)
  }

  lemma VisitDecides(before: seq<Item>, items: seq<Item>, paused: bool, scope: Option<Scope>, scan: Scan,
                     order: seq<nat>, n: nat)
    requires Ordered(before, paused, order) && n < |order|
    requires Sweeping(before, items, paused, scope, scan, order, n)
    ensures order[n] !in order[..n] && items[order[n]] == before[order[n]]
    ensures var verdict := Decide(items, Fixed(before), scope, scan, items[order[n]]);
            verdict == DecideAt(before, scope, scan, order[n]) && (Stops(verdict) <==> n == StopAt(before, scope, scan, order))
  {
    assert forall m | 0 <= m < n :: Precedes(before[order[m]], before[order[n]], paused);
    MarkingKeepsDecisions(before, items, Fixed(before), scope, scan, before[order[n]]);
  }

  lemma VisitAdvances(before: seq<Item>, items: seq<Item>, paused: bool, scope: Option<Scope>, scan: Scan,
                      order: seq<nat>, n: nat)
    requires Indexes(before, order) && n < |order| && order[n] !in order[..n]
    requires Tier(before[order[n]], paused).Some? && Sound(None, before[order[n]])
    requires items == MarkedUpTo(before, scope, scan, order, n) && AllMarkedFrom(before, items)
    ensures var items' := items[order[n] := Left(before[order[n]], DecideAt(before, scope, scan, order[n]))];
            items' == MarkedUpTo(before, scope, scan, order, n + 1) && AllMarkedFrom(before, items')
  {
    hide Decide, Precedes;
    assert order[..n + 1] == order[..n] + [order[n]];
    VisitMarks(before, Fixed(before), scope, scan, before[order[n]], paused);
  }

  method Visit(ghost before: seq<Item>, items: seq<Item>, fixed: Option<Item>, paused: bool, scope: Option<Scope>,
               scan: Scan, order: seq<nat>, n: nat)
    returns (items': seq<Item>, verdict: Verdict)
    requires Ordered(before, paused, order) && n < |order| && fixed == Fixed(before)
    requires Tier(before[order[n]], paused).Some? && Sound(None, before[order[n]])
    requires Sweeping(before, items, paused, scope, scan, order, n)
    ensures Stops(verdict) ==> items' == items && n == StopAt(before, scope, scan, order)
    ensures Stops(verdict) ==> items[order[n]] == before[order[n]] && verdict == DecideAt(before, scope, scan, order[n])
    ensures !Stops(verdict) ==> Sweeping(before, items', paused, scope, scan, order, n + 1)
  {
    hide Decide, MarkedUpTo, Precedes, Sound, Fixed;
    VisitDecides(before, items, paused, scope, scan, order, n);
    VisitAdvances(before, items, paused, scope, scan, order, n);
    var x := order[n];
    verdict := Judge(items, fixed, scope, scan, items[x]);
    items' := if verdict.Mark? then items[x := verdict.item] else items;
    assert !verdict.Mark? ==> items[x := items[x]] == items;
  }

  /** The loop of a reservation: mark candidates in order until one is taken or raises the fault. */
  method Sweep(before: seq<Item>, paused: bool, scope: Option<Scope>, scan: Scan, order: seq<nat>)
    returns (items: seq<Item>, n: nat, verdict: Verdict)
    requires Ordered(before, paused, order)
    requires forall a | 0 <= a < |order| :: Tier(before[order[a]], paused).Some?
    requires forall i | 0 <= i < |before| :: Sound(None, before[i])
    ensures n == StopAt(before, scope, scan, order) && Sweeping(before, items, paused, scope, scan, order, n)
    ensures n < |order| ==> items[order[n]] == before[order[n]] && verdict == DecideAt(before, scope, scan, order[n])
  {
    hide Decide, Precedes, Sound, Tier, Fixed;
    var fixed := Fixed(before);
    items, n, verdict := before, 0, Skip;
    while n < |order|
      invariant n <= |order| && Sweeping(before, items, paused, scope, scan, order, n)
    {
      items, verdict := Visit(before, items, fixed, paused, scope, scan, order, n);
      if Stops(verdict) {
        return;
      }
      n := n + 1;
    }
  }

  datatype Outcome = Outcome(items: seq<Item>, run: Option<Run>, fault: bool)

  /** What a reservation that looks at the candidates makes of the document: everything before
      the stopping candidate is marked, and that one gets the slot or raises the fault. */
  function Chosen(before: seq<Item>, paused: bool, scope: Option<Scope>, scan: Scan, id: RunId, launcher: Pid,
                  supervision: Option<Supervision>): Outcome {
    var order := Candidates(before, paused);
    var n := StopAt(before, scope, scan, order);
    var items := MarkedUpTo(before, scope, scan, order, n);
    if n == |order| then Outcome(items, None, false)
    else if DecideAt(before, scope, scan, order[n]).Halt? then Outcome(items, None, true)
    else
      var item := before[order[n]];
      Outcome(items[order[n] := Granted(item, scan, id)],
              Some(Run(id, item.contract.key, KindOf(item), scan.now, launcher, None, None, supervision, Some(scan.package))), false)
  }

  /** The kind of run that a candidate gets. */
  predicate GetsKind(i: Item, kind: Kind) {
    kind == if i.request.Some? then i.request.value.kind else if i.status == Blocked then RetryBaseline else Execute
  }

  /** What a grant makes of its item: it names the run, forgets which run sealed it, uses up a scheduled
      retry, and changes status and strategy exactly for an execution. */
  predicate GrantedTo(was: Item, now: Item, kind: Kind, scan: Scan, id: RunId) {
    && now.runId == Some(id) && now.seal == was.seal.(run := None)
    && now.status == (if kind == Execute then Claimed else was.status)
    && now.strategy == (if kind == Execute then scan.strategy else was.strategy)
    && (was.recovery.Some? && kind in {RetryBaseline, ResumeTask} ==> now.recovery == Some(was.recovery.value.(nextRunAt := None)))
    && (was.recovery.None? || kind !in {RetryBaseline, ResumeTask} ==> now.recovery == was.recovery)
    && now.precondition == (if kind == Execute then None else was.precondition)
    && (was.status != WaitingPrecondition || kind == Execute ==> now.waiting.None?)
    && now.contract == was.contract && now.priority == was.priority && now.revoked == was.revoked && now.intact == was.intact
    && now.root == was.root && now.request == was.request
  }

  /** The reservation against its specification, which has no loop: with unit tests enabled no
      fault is raised; the slot goes to an item that may run and goes before every other item j
      that may; and it stays free only if no j may run. */
  lemma ChosenIsFirstEligible(before: seq<Item>, paused: bool, scope: Option<Scope>, scan: Scan, id: RunId,
                              launcher: Pid, supervision: Option<Supervision>, j: nat)
    requires Identified(before) && scan.unitTests && j < |before|
    requires forall i | 0 <= i < |before| :: Sound(None, before[i])
    ensures var chosen := Chosen(before, paused, scope, scan, id, launcher, supervision);
            var eligible := MayStart(before[j], paused) && MayRun(before, scope, scan, before[j]);
            && !chosen.fault && |chosen.items| == |before|
            && (chosen.run.None? ==> !eligible)
            && (chosen.run.Some? ==> exists x: nat | x < |before| ::
                  && MayStart(before[x], paused) && MayRun(before, scope, scan, before[x])
                  && (eligible ==> j == x || GoesFirst(before[x], before[j]))
                  && chosen.run.value.key == before[x].contract.key && GetsKind(before[x], chosen.run.value.kind)
                  && GrantedTo(before[x], chosen.items[x], chosen.run.value.kind, scan, id))
  {
    hide Decide, MarkedUpTo, Granted, GrantedTo, GetsKind, KindOf, Precedes, GoesFirst, Candidates, Tier, MayStart, MayRun;
    var order := Candidates(before, paused);
    var n := StopAt(before, scope, scan, order);
    TakesOnlyEligible(before, paused, scope, scan);
    MarkedAt(before, scope, scan, order, n, j);
    if n < |order| {
      var x := order[n];
      NeverHalts(before, scope, scan, x);
      GrantedIs(before[x], paused, scope, scan, before, id);
      TiersAre(before[x], before[j], paused);
    }
    if Eligible(before, paused, scope, scan, j) {
      TakesFirstEligible(before, paused, scope, scan, j);
    }
    TiersAre(before[j], before[j], paused);
  }

  lemma GrantedIs(item: Item, paused: bool, scope: Option<Scope>, scan: Scan, before: seq<Item>, id: RunId)
    requires Sound(None, item) && Tier(item, paused).Some? && MayRun(before, scope, scan, item)
    ensures GetsKind(item, KindOf(item)) && GrantedTo(item, Granted(item, scan, id), KindOf(item), scan, id)
  {
    hide Fixed, TaskCompleted, ScopeAllows, Authorized;
  }

  /** A paused queue: nothing but a requested abort is granted or marked, and no fault is raised. */
  lemma PausedGrantsOnlyAborts(before: seq<Item>, scope: Option<Scope>, scan: Scan, id: RunId, launcher: Pid,
                               supervision: Option<Supervision>, j: nat)
    requires Identified(before) && j < |before|
    ensures var chosen := Chosen(before, true, scope, scan, id, launcher, supervision);
            && !chosen.fault && (chosen.run.Some? ==> chosen.run.value.kind == AbortTask)
            && |chosen.items| == |before| && (!IsAbort(before[j]) ==> chosen.items[j] == before[j])
  {
    hide Decide, Precedes, Candidates, Granted, Left, Tier;
    CandidatesOrdered(before, true);
    var order := Candidates(before, true);
    var n := StopAt(before, scope, scan, order);
    forall a | 0 <= a < |order|
      ensures IsAbort(before[order[a]]) && KindOf(before[order[a]]) == AbortTask
    {
      PausedCandidates(before[order[a]]);
    }
    if n < |order| {
      AbortNeverHalts(before, scope, scan, order[n]);
    }
    MarkedAt(before, scope, scan, order, n, j);
  }

  /** A contract that would be executed, reviewed or integrated without unit tests. */
  predicate NeedsUnitTests(i: Item, scope: Option<Scope>, scan: Scan) {
    && !IsAbort(i)
    && (scope.Some? ==> i.contract.key in scope.value.keys && scan.now < scope.value.expires && i.contract.schema >= 6)
  }

  /** Without unit tests the first candidate in scope that is no abort raises the fault: nothing but an abort
      that goes before it is granted the slot. And nothing else raises the fault. */
  lemma UntestedFaults(before: seq<Item>, paused: bool, scope: Option<Scope>, scan: Scan, id: RunId,
                       launcher: Pid, supervision: Option<Supervision>, j: nat)
    requires Identified(before) && j < |before|
    ensures var chosen := Chosen(before, paused, scope, scan, id, launcher, supervision);
            && (!scan.unitTests && MayStart(before[j], paused) && NeedsUnitTests(before[j], scope, scan) ==>
                  chosen.fault || (chosen.run.Some? && chosen.run.value.kind == AbortTask && exists x: nat | x < |before| ::
                    chosen.run.value.key == before[x].contract.key && GoesFirst(before[x], before[j])))
            && (chosen.fault ==> chosen.run.None? && !scan.unitTests && exists x: nat | x < |before| ::
                  MayStart(before[x], paused) && NeedsUnitTests(before[x], scope, scan))
  {
    hide Decide, DecideAt, Precedes, Candidates, Granted, Left, Tier, MayStart, GoesFirst, MarkedUpTo, NeedsUnitTests, KindOf, IsAbort;
    CandidatesOrdered(before, paused);
    var order := Candidates(before, paused);
    var n := StopAt(before, scope, scan, order);
    TiersAre(before[j], before[j], paused);
    HaltsWhen(before, scope, scan, j);
    if n < |order| {
      HaltsWhen(before, scope, scan, order[n]);
      TiersAre(before[order[n]], before[j], paused);
    }
    if MayStart(before[j], paused) && DecideAt(before, scope, scan, j).Halt? {
      var a :| 0 <= a < |order| && order[a] == j;
      assert n <= a;
    }
  }

  lemma HaltsWhen(items: seq<Item>, scope: Option<Scope>, scan: Scan, i: nat)
    requires i < |items|
    ensures DecideAt(items, scope, scan, i).Halt? <==> !scan.unitTests && NeedsUnitTests(items[i], scope, scan)
    ensures DecideAt(items, scope, scan, i).Take? && !scan.unitTests ==> KindOf(items[i]) == AbortTask
  {
  }

  lemma PausedCandidates(i: Item)
    ensures Tier(i, true).Some? <==> IsAbort(i)
  {
  }

  lemma AbortNeverHalts(items: seq<Item>, scope: Option<Scope>, scan: Scan, i: nat)
    requires i < |items| && IsAbort(items[i])
    ensures !DecideAt(items, scope, scan, i).Halt?
  {
  }

  lemma MarkedAt(before: seq<Item>, scope: Option<Scope>, scan: Scan, order: seq<nat>, n: nat, j: nat)
    requires n <= |order| && j < |before|
    ensures |MarkedUpTo(before, scope, scan, order, n)| == |before|
    ensures (forall a | 0 <= a < |order| :: order[a] != j) ==> MarkedUpTo(before, scope, scan, order, n)[j] == before[j]
  {
  }

  /** If the one item of the queue is eligible, it is granted the slot. */
  lemma SingleChosen(item: Item, paused: bool, scope: Option<Scope>, scan: Scan, id: RunId, launcher: Pid,
                     supervision: Option<Supervision>)
    requires scan.unitTests && Eligible([item], paused, scope, scan, 0)
    ensures Chosen([item], paused, scope, scan, id, launcher, supervision) ==
            Outcome([Granted(item, scan, id)],
                    Some(Run(id, item.contract.key, KindOf(item), scan.now, launcher, None, None, supervision, Some(scan.package))), false)
  {
    hide Decide, Precedes, Candidates, MayRun, Granted;
    var order := Candidates([item], paused);
    TakesFirstEligible([item], paused, scope, scan, 0);
    NeverHalts([item], scope, scan, order[StopAt([item], scope, scan, order)]);
  }

  lemma ChosenUnfolds(before: seq<Item>, paused: bool, scope: Option<Scope>, scan: Scan, id: RunId, launcher: Pid,
                      supervision: Option<Supervision>)
    ensures var order := Candidates(before, paused);
            var n := StopAt(before, scope, scan, order);
            var items := MarkedUpTo(before, scope, scan, order, n);
            var chosen := Chosen(before, paused, scope, scan, id, launcher, supervision);
            if n == |order| then chosen == Outcome(items, None, false)
            else if DecideAt(before, scope, scan, order[n]).Halt? then chosen == Outcome(items, None, true)
            else
              var item := before[order[n]];
              chosen == Outcome(items[order[n] := Granted(item, scan, id)],
                                Some(Run(id, item.contract.key, KindOf(item), scan.now, launcher, None, None, supervision, Some(scan.package))), false)
  {
    hide MarkedUpTo, Granted, KindOf, Decide, Candidates;
  }

  /** The end of the loop for a candidate that passed the checks. */
  method Grant(candidate: Item, scan: Scan, id: RunId) returns (item: Item, kind: Kind)
    ensures item == Granted(candidate, scan, id) && kind == KindOf(candidate)
  {
    item := candidate;
    if item.status != WaitingPrecondition {
      item := item.(waiting := None);
    }
    var retry := item.request.None? && item.status == Blocked && item.recovery.Some?;
    if item.request.None? && !retry {
      item := item.(precondition := None, waiting := None);
    }
    kind := Execute;
    if item.request.Some? {
      kind := item.request.value.kind;
    } else if retry {
      kind := RetryBaseline;
    }
    if item.recovery.Some? && (kind == RetryBaseline || kind == ResumeTask) {
      item := item.(recovery := Some(item.recovery.value.(nextRunAt := None)));
    }
    item := item.(runId := Some(id), seal := item.seal.(run := None));
    if kind == Execute {
      item := item.(strategy := scan.strategy, status := Claimed);
    }
  }

  method Choose(before: seq<Item>, paused: bool, scope: Option<Scope>, scan: Scan, ghost sequence: nat,
                id: RunId, launcher: Pid, supervision: Option<Supervision>)
    returns (items: seq<Item>, run: Option<Run>, fault: bool)
    requires Consistent(before, None, sequence)
    requires forall i | 0 <= i < |before| && Holder(before[i]) :: before[i].strategy == scan.strategy
    ensures Consistent(items, run, sequence) && (run.Some? ==> run.value.id == id && run.value.worker.None?)
    ensures Outcome(items, run, fault) == Chosen(before, paused, scope, scan, id, launcher, supervision)
  {
    hide Chosen, Decide, Precedes, Sound, Exclusive, Granted, KindOf, Tier, Candidates, MarkedUpTo;
    ChosenUnfolds(before, paused, scope, scan, id, launcher, supervision);
    var order := Candidates(before, paused);
    CandidatesOrdered(before, paused);
    var marked, n, verdict := Sweep(before, paused, scope, scan, order);
    MarksKeep(before, marked, None, sequence);
    items, run, fault := marked, None, false;
    if n < |order| {
      if verdict.Halt? {
        fault := true;
      } else {
        var item, kind := Grant(marked[order[n]], scan, id);
        GrantedSame(before[order[n]], scan, id);
        run := Some(Run(id, item.contract.key, kind, scan.now, launcher, None, None, supervision, Some(scan.package)));
        GrantKeeps(before, marked, scope, scan, paused, sequence, order[n], run.value);
        items := marked[order[n] := item];
      }
    }
  }

  /** Freeing the slot leaves its item with no more claim than it had. */
  lemma ReleaseKeeps(items: seq<Item>, run: Run, sequence: nat, x: nat, item: Item)
    requires Consistent(items, Some(run), sequence) && x < |items| && items[x].contract.key == run.key
    requires item.contract == items[x].contract && item.strategy == items[x].strategy && Sound(None, item)
    ensures Consistent(items[x := item], None, sequence)
  {
  }

  /** The item of a finished run, as reconciliation records it. */
  function Reconciled(item: Item, run: Run): Item {
    item.(status := if run.outcome.Some? then run.outcome.value else Blocked,
          waiting := if run.outcome.Some? then Some(Reported(0)) else Some(NoOutcome),
          request := if Requests(item, run.kind) then None else item.request)
  }

  /** COMPLETED is final exactly if no abort was asked for too late: one that an automatic run left
      behind, and nothing else, puts the completed item back at the head of the next reservation. */
  lemma CompletionIsNotFinal(item: Item, run: Run, paused: bool)
    requires Sound(Some(run), item) && Occupies(Some(run), item) && run.outcome == Some(Completed)
    ensures var after := Reconciled(item, run);
            && after.status == Completed
            && (Tier(after, paused).Some? <==> Unprompted(run.kind) && Requests(item, AbortTask))
            && (Tier(after, paused).Some? ==>
                  Tier(after, paused) == Some(0) && KindOf(after) == AbortTask && item.contract.autoCommit)
  {
  }

  /** The next reservation runs a completed contract again only to abort it, and does so if it may,
      unless another candidate comes before it. */
  lemma CompletedRunsAgain(items: seq<Item>, run: Run, sequence: nat, x: nat, paused: bool, scope: Option<Scope>,
                           scan: Scan, id: RunId, launcher: Pid, supervision: Option<Supervision>)
    requires Consistent(items, Some(run), sequence) && x < |items| && items[x].contract.key == run.key
    requires run.outcome == Some(Completed) && scan.unitTests
    ensures var after := items[x := Reconciled(items[x], run)];
            var late := Unprompted(run.kind) && Requests(items[x], AbortTask);
            var granted := Chosen(after, paused, scope, scan, id, launcher, supervision).run;
            && (granted.Some? && granted.value.key == run.key ==> late && granted.value.kind == AbortTask)
            && (late && MayRun(after, scope, scan, after[x]) ==> granted.Some?)
            && (late && MayRun(after, scope, scan, after[x]) && granted.value.key != run.key ==>
                  exists y: nat | y < |after| :: GoesFirst(after[y], after[x]) && granted.value.key == after[y].contract.key)
  {
    hide Chosen, MayRun, GoesFirst, GrantedTo, Exclusive;
    var after := items[x := Reconciled(items[x], run)];
    assert Sound(Some(run), items[x]) && Occupies(Some(run), items[x]);
    CompletionIsNotFinal(items[x], run, paused);
    UpdateKeepsListed(items, x, after[x]);
    ChosenIsFirstEligible(after, paused, scope, scan, id, launcher, supervision, x);
  }

  /** An abort that outlives the completion it came too late for belongs to an automatic commit. */
  lemma ReconciledSound(item: Item, run: Run)
    requires Sound(Some(run), item) && Occupies(Some(run), item)
    ensures Sound(None, Reconciled(item, run))
  {
  }

  /** What a stopped run leaves of its item: a seal that names the run, or none. */
  function Stopped(item: Item, status: Status, id: RunId, diff: Option<nat>, candidate: nat): Item {
    item.(status := status,
          seal := Seal(diff, if diff.Some? then Some(id) else None, if diff.Some? then Some(candidate) else None, item.seal.commit),
          recovery := if item.recovery.Some? then Some(item.recovery.value.(nextRunAt := None)) else None)
  }

  method SealStopped(stopped: Item, status: Status, id: RunId, diff: Option<nat>, candidate: nat) returns (item: Item)
    ensures item == Stopped(stopped, status, id, diff, candidate)
  {
    item := stopped.(status := status);
    if item.recovery.Some? {
      item := item.(recovery := Some(item.recovery.value.(nextRunAt := None)));
    }
    var seal := item.seal.(diff := diff, run := None, candidate := None);
    if diff.Some? {
      seal := seal.(run := Some(id), candidate := Some(candidate));
    }
    item := item.(seal := seal);
  }

  function Halted(item: Item): Item {
    item.(status := Blocked, waiting := Some(Interrupted), seal := item.seal.(run := None))
  }

  /** Only the outcome matters to the item of a run. */
  lemma SameClaims(items: seq<Item>, run: Run, run': Run, sequence: nat)
    requires Consistent(items, Some(run), sequence) && run' == run.(outcome := run'.outcome, supervision := run'.supervision)
    requires run'.outcome.Some? ==> forall i | 0 <= i < |items| && items[i].contract.key == run.key :: MayReport(run, items[i], run'.outcome.value)
    ensures Consistent(items, Some(run'), sequence)
  {
  }

  /** Which worker has the run does not matter to the items. */
  lemma WorkerKeeps(items: seq<Item>, run: Run, p: Pid, sequence: nat)
    requires Consistent(items, Some(run), sequence)
    ensures Consistent(items, Some(run.(worker := Some(p))), sequence)
  {
  }

  function At(items: seq<Item>, key: Key): (x: nat)
    requires Listed(items, key)
    ensures x < |items| && items[x].contract.key == key
  {
    Find(items, key).value
  }

  predicate Recorded(runs: seq<Run>, id: RunId) {
    exists i | 0 <= i < |runs| :: runs[i].id == id
  }

  lemma RecordRun(runs: seq<Run>, run: Run)
    ensures forall id :: Recorded(runs + [run], id) <==> Recorded(runs, id) || id == run.id
  {
    forall id
      ensures Recorded(runs + [run], id) <==> Recorded(runs, id) || id == run.id
    {
      assert (runs + [run])[|runs|].id == run.id;
      if Recorded(runs, id) {
        var i :| 0 <= i < |runs| && runs[i].id == id;
        assert (runs + [run])[i].id == id;
      }
    }
  }

  predicate MayControl(run: Option<Run>, i: Item, cancel: bool) {
    !Terminal(i.status) && (cancel ==> i.root.None? && !Occupies(run, i))
  }

  // ---------------------------------------------------------------- what intake looks at

  datatype Intake = Accepted | Repeated | Refused

  /** The stored drafts, and what is computed from files: the approval text of a sealed contract,
      whether its verification preview is still the sealed one, and whether it is ready for intake. */
  datatype Desk = Desk(drafts: map<Key, Contract>, text: nat -> nat, same: Contract -> bool, ready: Contract -> bool)

  /** The approval shows the digest and the text of this very contract. */
  predicate Approves(desk: Desk, sealed: Contract, digest: nat, approval: nat) {
    sealed.digest == digest && desk.text(digest) == approval
  }

  /** The contract is in the queue already, and this is its approval again. */
  predicate Answered(items: seq<Item>, desk: Desk, key: Key, digest: nat, approval: nat) {
    Listed(items, key) && Approves(desk, items[At(items, key)].contract, digest, approval)
  }

  lemma NowAnswered(items: seq<Item>, item: Item, desk: Desk, digest: nat, approval: nat)
    requires !Listed(items, item.contract.key) && Approves(desk, item.contract, digest, approval)
    ensures Answered(items + [item], desk, item.contract.key, digest, approval)
  {
    var all := items + [item];
    assert all[|items|] == item && forall i | 0 <= i < |items| :: all[i] == items[i];
    assert forall i | 0 <= i < |items| :: items[i].contract.key != item.contract.key;
  }

  predicate Acceptable(items: seq<Item>, desk: Desk, key: Key, digest: nat, approval: nat) {
    && !Listed(items, key) && key in desk.drafts && Approves(desk, desk.drafts[key], digest, approval)
    && desk.same(desk.drafts[key]) && Enqueueable(items, desk.drafts[key]) && desk.ready(desk.drafts[key])
  }

  /** What a policy change sees of the repository: the lifecycle lock, a workspace lease, uncommitted
      changes, and whether the settings with the new policy are valid. */
  datatype Site = Site(locked: bool, leased: bool, clean: bool, validSettings: bool)

  predicate Settled(site: Site) {
    !site.locked && !site.leased && site.clean && site.validSettings
  }

  const MAX_TRIAL_CANDIDATES := 5

  /** Aborts may run at least as long as anything else, and the batch is small. */
  predicate WellFormed(scope: Scope) {
    1 <= |scope.keys| <= 5 && scope.expires <= scope.cleanupExpires
  }

  /** The trial whose installation has not been restored: its task, and the run that owns it. */
  datatype Restoration = Restoration(key: Key, trial: nat)

  // ---------------------------------------------------------------- what a request looks at

  /** The record of a verification that an environment failure stopped: still the one the item
      names, and an environment failure with manual retries left. */
  datatype Ledger = NoLedger | Ledger(stopped: bool, intact: bool, retriable: bool)

  /** Scoped: the contract has a verification scope, and the baseline stage was reached. */
  datatype Evidence = Evidence(scoped: bool, green: Ledger, review: Ledger, integration: Ledger, integrationNamed: bool)

  datatype Binding = Unbound | BoundTo(phase: Phase) | Unrecoverable

  predicate Counts(l: Ledger) { l.Ledger? && l.stopped }

  function Bind(l: Ledger, phase: Phase): Binding {
    if l.Ledger? && l.intact && l.retriable then BoundTo(phase) else Unrecoverable
  }

  /** The failure that a recovery of this item has to bind: the first stage with a record that counts. */
  function VerificationRecovery(i: Item, e: Evidence): Binding {
    if !e.scoped then Unbound
    else if i.status !in {Blocked, IntegrationBlocked} || i.seal.candidate.None? || i.seal.diff.None? then Unrecoverable
    else if i.status == IntegrationBlocked then if Counts(e.integration) then Bind(e.integration, Integration) else Unrecoverable
    else if Counts(e.review) then Bind(e.review, Review)
    else if Counts(e.green) then Bind(e.green, Green)
    else Unrecoverable
  }

  /** The binding a request of this kind needs. */
  function NeededBinding(i: Item, kind: Kind, e: Evidence): Binding {
    if kind == ResumeTask || (kind == Recover && e.integrationNamed) then VerificationRecovery(i, e) else Unbound
  }

  /** A task is resumed only in the stage its environment failed in; once its candidate is committed
      it can only be recovered. */
  lemma ResumesTheFailedStage(run: Option<Run>, i: Item, candidate: Option<nat>, approved: bool, e: Evidence)
    requires e.scoped && MayRequest(run, i, ResumeTask, candidate, approved, e)
    ensures i.status == Blocked && i.seal.candidate.Some? && i.seal.diff.Some?
    ensures NeededBinding(i, ResumeTask, e) == BoundTo(if Counts(e.review) then Review else Green)
    ensures !MayRequest(run, i.(status := IntegrationBlocked), ResumeTask, candidate, approved, e)
  {
  }

  /** While its run is active only an abort can be asked for, and an earlier request can only be
      repeated. An acceptance is bound to the latest sealed candidate. */
  predicate MayRequest(run: Option<Run>, i: Item, kind: Kind, candidate: Option<nat>, approved: bool, e: Evidence) {
    && kind !in {Execute, RetryBaseline}
    && i.root.Some? && !Terminal(i.status)
    && (Occupies(run, i) ==> kind == AbortTask)
    && (i.request.Some? ==> i.request.value.kind == kind)
    && KindFits(i, kind, candidate, approved)
    && NeededBinding(i, kind, e) != Unrecoverable
    && (kind == ResumeTask ==> NeededBinding(i, kind, e) != BoundTo(Integration))
  }

  function NewItem(draft: Contract, sequence: nat, priority: int): Item {
    Item(draft.(sequence := sequence), draft.approved, priority, false, true, Queued, None, None, None, None,
         Seal(None, None, None, None), None, None)
  }

  /** The approvals and the states that particular requests need. */
  predicate KindFits(i: Item, kind: Kind, candidate: Option<nat>, approved: bool) {
    && (kind == Integrate ==>
          !i.contract.autoCommit && i.status == AwaitingHuman && candidate.Some? && candidate == i.seal.candidate)
    && (kind == Revalidate ==> i.strategy == Isolated && i.status == AwaitingHuman)
    && (kind !in {Recover, Revalidate} ==> approved)
  }

  method RefusesKind(item: Item, kind: Kind, candidate: Option<nat>, approved: bool) returns (refused: bool)
    ensures refused <==> !KindFits(item, kind, candidate, approved)
  {
    if kind == Integrate {
      if item.contract.autoCommit || item.status != AwaitingHuman || candidate.None? || candidate != item.seal.candidate || !approved {
        return true;
      }
    } else if kind != Recover && kind != Revalidate && !approved {
      return true;
    }
    return kind == Revalidate && (item.strategy != Isolated || item.status != AwaitingHuman);
  }

  /** Look for the failure to bind, stage by stage. */
  method RecoverVerification(item: Item, e: Evidence) returns (b: Binding)
    ensures b == VerificationRecovery(item, e)
  {
    if !e.scoped {
      return Unbound;
    }
    if (item.status != Blocked && item.status != IntegrationBlocked) || item.seal.candidate.None? || item.seal.diff.None? {
      return Unrecoverable;
    }
    var phases := if item.status == IntegrationBlocked then [Integration] else [Review, Green];
    for n := 0 to |phases|
      invariant forall m | 0 <= m < n :: !Counts(LedgerOf(e, phases[m]))
    {
      var ledger := match phases[n] case Integration => e.integration case Review => e.review case Green => e.green;
      assert n == 1 ==> !Counts(LedgerOf(e, phases[0]));
      if ledger.Ledger? && ledger.stopped {
        if !ledger.intact || !ledger.retriable {
          return Unrecoverable;
        }
        return BoundTo(phases[n]);
      }
    }
    assert !Counts(LedgerOf(e, phases[0])) && (|phases| == 2 ==> !Counts(LedgerOf(e, phases[1])));
    return Unrecoverable;
  }

  /** The request, if it may be made, with the failure it binds. */
  method MakeRequest(run: Option<Run>, item: Item, kind: Kind, candidate: Option<nat>, approved: bool, e: Evidence)
    returns (r: Option<Request>)
    ensures r.Some? <==> MayRequest(run, item, kind, candidate, approved, e)
    ensures r.Some? ==> var needed := NeededBinding(item, kind, e);
              r.value == Request(kind, candidate, if needed.BoundTo? then Some(needed.phase) else None)
  {
    hide VerificationRecovery, KindFits;
    r := None;
    if kind == RetryBaseline || kind == Execute || item.root.None? || item.status in {Completed, Cancelled, Aborted, Superseded} {
      return;
    }
    if (run.Some? && run.value.key == item.contract.key && kind != AbortTask) ||
       (item.request.Some? && item.request.value.kind != kind) {
      return;
    }
    var refused := RefusesKind(item, kind, candidate, approved);
    if refused {
      return;
    }
    var bound: Option<Phase> := None;
    if kind == ResumeTask || (kind == Recover && e.integrationNamed) {
      var needed := RecoverVerification(item, e);
      if needed.Unrecoverable? || (kind == ResumeTask && needed == BoundTo(Integration)) {
        return;
      }
      if needed.BoundTo? {
        bound := Some(needed.phase);
      }
    }
    r := Some(Request(kind, candidate, bound));
  }

  function LedgerOf(e: Evidence, phase: Phase): Ledger {
    match phase case Integration => e.integration case Review => e.review case Green => e.green
  }

  // ---------------------------------------------------------------- the document

  class TaskQueue {
    var items: seq<Item>
    var active: Option<Run>
    var runs: seq<Run>
    var paused: bool
    var fault: bool
    var sequence: nat
    var scope: Option<Scope>
    /** The strategy of the next reservation. A configuration edited by hand can change it at
        any time, so nothing below relies on it. */
    var configured: Strategy
    /** The process table: identities (pid and start time) now alive, and all ever seen. */
    var alive: set<Pid>
    ghost var seen: set<Pid>
    /** Every run ever reserved, and the worker that registered for it, if one did. */
    ghost var reserved: set<RunId>
    ghost var registered: map<RunId, Pid>

    ghost predicate SlotValid()
      reads `active, `runs, `reserved
    {
      && (forall i, j | 0 <= i < j < |runs| :: runs[i].id != runs[j].id)
      && (active.Some? ==> forall i | 0 <= i < |runs| :: runs[i].id != active.value.id)
      && (forall id :: id in reserved <==>
            (active.Some? && active.value.id == id) || Recorded(runs, id))
    }

    /** Only the worker of the active run can still be alive. */
    ghost predicate WorkersValid()
      reads `active, `runs, `alive, `seen, `reserved, `registered
    {
      && alive <= seen && registered.Keys <= reserved && registered.Values <= seen
      && (forall id | id in registered && registered[id] in alive :: active.Some? && active.value.id == id)
      && (active.Some? ==> WorkerRecorded(active.value))
      && (forall i | 0 <= i < |runs| :: WorkerRecorded(runs[i]))
    }

    ghost predicate WorkerRecorded(run: Run)
      reads `registered
    {
      run.worker == if run.id in registered then Some(registered[run.id]) else None
    }

    ghost predicate ItemsValid()
      reads `items, `active, `sequence
    {
      Consistent(items, active, sequence)
    }

    ghost predicate Valid()
      reads `items, `active, `runs, `sequence, `alive, `seen, `reserved, `registered
    {
      SlotValid() && WorkersValid() && ItemsValid()
    }

    /** p is the registered worker of a run of this item. Nothing says that the run is active. */
    ghost predicate WorksOn(p: Pid, id: RunId, key: Key)
      reads this
    {
      && id in registered && registered[id] == p && p in alive
      && ((active.Some? && active.value.id == id && active.value.key == key) ||
          exists i | 0 <= i < |runs| :: runs[i].id == id && runs[i].key == key)
    }

    constructor ()
      ensures Valid() && items == [] && active == None && runs == [] && !paused && !fault && sequence == 0 && scope == None
      ensures alive == {} && seen == {} && reserved == {}
    {
      items, active, runs, paused, fault, sequence, scope, configured := [], None, [], false, false, 0, None, InPlace;
      alive, seen, reserved, registered := {}, {}, {}, map[];
    }

    // ---------------------------------------------------------------- processes

    method Start(p: Pid)
      requires Valid() && p !in seen
      modifies `alive, `seen
      ensures Valid() && alive == old(alive) + {p} && seen == old(seen) + {p}
    {
      alive, seen := alive + {p}, seen + {p};
    }

    method Die(p: Pid)
      requires Valid()
      modifies `alive
      ensures Valid() && alive == old(alive) - {p}
    {
      alive := alive - {p};
    }

    // ---------------------------------------------------------------- intake and control

    method Append(item: Item)
      requires Valid() && !Listed(items, item.contract.key) && item.contract.sequence == sequence + 1
      requires item.status == Queued && item.root.None? && item.request.None? && item.recovery.None?
      modifies `items, `sequence
      ensures Valid() && sequence == old(sequence) + 1 && items == old(items) + [item]
    {
      hide Exclusive, SlotValid, WorkersValid;
      ghost var before := items;
      AppendKeeps(items, active, item);
      sequence, items := sequence + 1, items + [item];
      assert items[|before|] == item && forall i | 0 <= i < |before| :: items[i] == before[i];
    }

    /** Enqueue an approved draft. Repeating the approval finds the item that is there. */
    method Enqueue(key: Key, digest: nat, approval: nat, desk: Desk, priority: int, now: int) returns (r: Intake)
      requires Valid() && (key in desk.drafts ==> desk.drafts[key].key == key)
      modifies `items, `sequence, `paused
      ensures Valid()
      ensures r.Repeated? <==> old(Answered(items, desk, key, digest, approval))
      ensures r.Accepted? <==> old(Acceptable(items, desk, key, digest, approval))
      ensures !r.Accepted? ==> items == old(items) && sequence == old(sequence) && paused == old(paused)
      ensures r.Accepted? ==> sequence == old(sequence) + 1 && items == old(items) + [NewItem(desk.drafts[key], sequence, priority)]
      ensures r.Accepted? ==> paused == (old(paused) && !ScopeAllows(scope, key, false, now))
      ensures !r.Refused? ==> Answered(items, desk, key, digest, approval)
    {
      hide Valid, Find;
      var existing := Find(items, key);
      if existing.Some? {
        var sealed := items[existing.value].contract;
        return if sealed.digest == digest && desk.text(digest) == approval then Repeated else Refused;
      }
      if key !in desk.drafts {
        return Refused;
      }
      var draft := desk.drafts[key];
      if draft.digest != digest || desk.text(digest) != approval || !desk.same(draft) {
        return Refused;
      }
      var admissible := Admissible(draft);
      if !admissible || !desk.ready(draft) {
        return Refused;
      }
      Append(Item(draft.(sequence := sequence + 1), draft.approved, priority, false, true, Queued, None, None, None, None,
                  Seal(None, None, None, None), None, None));
      if scope.Some? ==> key in scope.value.keys && now < scope.value.expires {
        paused := false;
      }
      NowAnswered(old(items), items[|old(items)|], desk, digest, approval);
      return Accepted;
    }

    /** No other version of the task is approved, and every dependency is. */
    method Admissible(draft: Contract) returns (ok: bool)
      ensures ok <==> OneVersion(items, draft) && DependenciesApproved(items, draft)
    {
      if exists i | 0 <= i < |items| :: items[i].contract.taskId == draft.taskId && items[i].status != Cancelled && items[i].status != Superseded {
        return false;
      }
      var n := 0;
      while n < |draft.dependsOn|
        invariant n <= |draft.dependsOn| && forall m | 0 <= m < n :: Approved(items, draft.dependsOn[m])
      {
        if !(exists i | 0 <= i < |items| :: items[i].contract.taskId == draft.dependsOn[n] && items[i].status != Cancelled) {
          assert draft.dependsOn[n] in draft.dependsOn && !Approved(items, draft.dependsOn[n]);
          return false;
        }
        n := n + 1;
      }
      return true;
    }

    /** Cancel an unstarted contract, or revoke the authorization of one that is not finished. */
    method Control(key: Key, cancel: bool) returns (ok: bool)
      requires Valid()
      modifies `items
      ensures Valid()
      ensures ok <==> Listed(old(items), key) && MayControl(active, old(items)[At(old(items), key)], cancel)
      ensures !ok ==> items == old(items)
      ensures ok ==> var x := At(old(items), key);
                items == old(items)[x := old(items)[x].(revoked := true, status := if cancel then Cancelled else old(items)[x].status)]
    {
      var x := Find(items, key);
      if x.None? || items[x.value].status in {Completed, Cancelled, Aborted, Superseded} {
        return false;
      }
      var item := items[x.value];
      if cancel {
        if item.root.Some? || (active.Some? && active.value.key == item.contract.key) {
          return false;
        }
        item := item.(status := Cancelled);
      }
      Put(x.value, item.(revoked := true));
      return true;
    }

    /** Replace one item, in a way that keeps its contract, strategy and bookkeeping. */
    method Put(x: nat, item: Item)
      requires Valid() && x < |items|
      requires item.contract == items[x].contract && item.strategy == items[x].strategy
      requires Sound(active, item) && (Claims(active, item) ==> Claims(active, items[x]))
      modifies `items
      ensures Valid() && items == old(items)[x := item]
    {
      UpdateKeepsExclusive(items, active, x, item);
      UpdateKeepsListed(items, x, item);
      items := items[x := item];
    }

    method Pause()
      requires Valid()
      modifies `paused
      ensures Valid() && paused
    {
      paused := true;
    }

    method Resume()
      requires Valid()
      modifies `paused
      ensures Valid() && !paused
    {
      paused := false;
    }

    method ClearFault() returns (ok: bool)
      requires Valid()
      modifies `fault
      ensures Valid() && ok == active.None? && fault == (old(fault) && !ok)
    {
      ok := active.None?;
      if ok {
        fault := false;
      }
    }

    /** Reorder an unstarted contract. */
    method Reorder(key: Key, priority: int) returns (ok: bool)
      requires Valid()
      modifies `items
      ensures Valid()
      ensures ok <==> -100 <= priority <= 100 && Listed(old(items), key) && Unstarted(old(items)[At(old(items), key)].status)
      ensures !ok ==> items == old(items)
      ensures ok ==> items == old(items)[At(old(items), key) := old(items)[At(old(items), key)].(priority := priority)]
    {
      var x := Find(items, key);
      ok := -100 <= priority <= 100 && x.Some? && items[x.value].status in {Queued, WaitingPrecondition};
      if ok {
        Put(x.value, items[x.value].(priority := priority));
      }
    }

    /** Ask for an operation on a retained workspace. */
    method RequestOperation(key: Key, kind: Kind, candidate: Option<nat>, approved: bool, e: Evidence) returns (ok: bool)
      requires Valid()
      modifies `items
      ensures Valid()
      ensures ok <==> Listed(old(items), key) && MayRequest(active, old(items)[At(old(items), key)], kind, candidate, approved, e)
      ensures !ok ==> items == old(items)
      ensures ok ==> var x := At(old(items), key); var needed := NeededBinding(old(items)[x], kind, e);
                items == old(items)[x := old(items)[x].(request :=
                  Some(Request(kind, candidate, if needed.BoundTo? then Some(needed.phase) else None)))]
    {
      hide MayRequest, NeededBinding, Sound, SlotValid, WorkersValid;
      var x := Find(items, key);
      ok := false;
      if x.Some? {
        var request := MakeRequest(active, items[x.value], kind, candidate, approved, e);
        if request.Some? {
          RequestKeeps(active, items[x.value], kind, candidate, approved, e, request.value);
          Put(x.value, items[x.value].(request := request));
          ok := true;
        }
      }
    }

    lemma RequestKeeps(run: Option<Run>, item: Item, kind: Kind, candidate: Option<nat>, approved: bool, e: Evidence, r: Request)
      requires Sound(run, item) && MayRequest(run, item, kind, candidate, approved, e) && r.kind == kind
      ensures Sound(run, item.(request := Some(r))) && (Claims(run, item.(request := Some(r))) ==> Claims(run, item))
    {
      hide NeededBinding, KindFits;
    }

    /** The guard of a policy change: a retained workspace keeps its strategy. */
    method SetPolicy(strategy: Strategy, site: Site) returns (ok: bool)
      requires Valid()
      modifies `configured
      ensures Valid()
      ensures ok <==> Settled(site) && paused && active.None? && forall i | 0 <= i < |items| :: !Holder(items[i])
      ensures configured == if ok then strategy else old(configured)
    {
      ok := false;
      if site.locked || !paused || active.Some? || site.leased || !site.clean || !site.validSettings {
        return;
      }
      if exists i | 0 <= i < |items| :: items[i].root.Some? && items[i].status !in {Completed, Cancelled, Aborted, Superseded} {
        return;
      }
      configured := strategy;
      ok := true;
    }

    /** A trial that is not restored yet keeps the queue to its own task and its own run. */
    method SetScope(value: Scope, pending: Option<Restoration>) returns (ok: bool)
      requires Valid()
      modifies `scope
      ensures Valid()
      ensures ok <==> WellFormed(value) && (pending.Some? ==> pending.value.key in value.keys && pending.value.trial == value.trial) &&
                      paused && active.None? && old(scope) in {None, Some(value)} && forall i | 0 <= i < |items| :: !Holder(items[i])
      ensures scope == if ok then Some(value) else old(scope)
    {
      ok := false;
      if value.keys == {} || |value.keys| > MAX_TRIAL_CANDIDATES || value.cleanupExpires < value.expires {
        return;
      }
      if pending.Some? && (pending.value.key !in value.keys || value.trial != pending.value.trial) {
        return;
      }
      if !paused || active.Some? || (scope.Some? && scope.value != value) {
        return;
      }
      if exists i | 0 <= i < |items| :: items[i].root.Some? && items[i].status !in {Completed, Cancelled, Aborted, Superseded} {
        return;
      }
      scope := Some(value);
      ok := true;
    }

    // ---------------------------------------------------------------- the slot

    /** The early returns of a reservation, before any candidate is looked at. */
    predicate Unavailable(scan: Scan, stale: bool, locked: bool, brokenLease: bool)
      reads this
    {
      stale || locked || active.Some? || fault || Mismatched(scan) || brokenLease
    }

    predicate Mismatched(scan: Scan)
      reads this
    {
      exists i | 0 <= i < |items| :: Holder(items[i]) && items[i].strategy != scan.strategy
    }

    /** Give the free slot to the first candidate that nothing makes wait. Everything else the
        loop does is to mark the candidates before it, or to raise the public fault. */
    method Reserve(scan: Scan, stale: bool, locked: bool, brokenLease: bool, id: RunId, launcher: Pid,
                   supervision: Option<Supervision>)
      returns (run: Option<Run>)
      requires Valid() && id !in reserved
      modifies `items, `active, `fault, `reserved
      ensures Valid()
      ensures active == if old(active).Some? then old(active) else run
      ensures reserved == if run.Some? then old(reserved) + {id} else old(reserved)
      ensures old(Unavailable(scan, stale, locked, brokenLease)) ==>
                run.None? && items == old(items) &&
                fault == (old(fault) || (!stale && !locked && active.None? && (Mismatched(scan) || brokenLease)))
      ensures !old(Unavailable(scan, stale, locked, brokenLease)) ==>
                Outcome(items, run, fault) == Chosen(old(items), paused, scope, scan, id, launcher, supervision)
    {
      hide Chosen, Consistent, Tier;
      run := None;
      if stale || locked || active.Some? || fault {
        return;
      }
      if exists i | 0 <= i < |items| ::
          items[i].root.Some? && items[i].status !in {Completed, Cancelled, Aborted, Superseded} && items[i].strategy != scan.strategy {
        fault := true;
        return;
      }
      if brokenLease {
        fault := true;
        return;
      }
      var next: seq<Item>;
      next, run, fault := Choose(items, paused, scope, scan, sequence, id, launcher, supervision);
      Occupy(next, run);
    }

    /** The document after a reservation, with a run whose id was never used before. */
    method Occupy(next: seq<Item>, run: Option<Run>)
      requires Valid() && active.None? && Consistent(next, run, sequence)
      requires run.Some? ==> run.value.id !in reserved && run.value.worker.None?
      modifies `items, `active, `reserved
      ensures Valid() && items == next && active == run
      ensures reserved == if run.Some? then old(reserved) + {run.value.id} else old(reserved)
    {
      hide Consistent;
      items, active := next, run;
      if run.Some? {
        reserved := reserved + {run.value.id};
      }
    }

    /** A worker takes the reserved run: once, from the same package, and under a live supervisor
        whose token it carries if one is required. */
    method RegisterWorker(p: Pid, id: RunId, token: Option<nat>, package: nat) returns (ok: bool)
      requires Valid() && p in alive
      modifies `active, `registered
      ensures Valid()
      ensures ok <==> MayRegister(old(active), id, token, package)
      ensures ok ==> id !in old(registered) && registered == old(registered)[id := p]
      ensures active == if ok then Some(old(active).value.(worker := Some(p))) else old(active)
      ensures !ok ==> registered == old(registered)
    {
      hide Consistent;
      ok := false;
      if active.None? || active.value.id != id || active.value.worker.Some? {
        return;
      }
      if active.value.supervision.Some? {
        var supervision := active.value.supervision.value;
        if supervision.state != SupRunning || supervision.owner.None? || supervision.owner.value !in alive || token != Some(supervision.token) {
          return;
        }
      }
      if active.value.package.Some? && active.value.package.value != package {
        return;
      }
      WorkerKeeps(items, active.value, p, sequence);
      active := Some(active.value.(worker := Some(p)));
      registered := registered[id := p];
      ok := true;
    }

    predicate MayRegister(run: Option<Run>, id: RunId, token: Option<nat>, package: nat)
      reads `alive
    {
      && run.Some? && run.value.id == id && run.value.worker.None?
      && SupervisorRuns(run.value) && (run.value.supervision.Some? ==> token == Some(run.value.supervision.value.token))
      && SamePackage(run.value, package)
    }

    predicate SamePackage(run: Run, package: nat) {
      run.package.Some? ==> run.package.value == package
    }

    predicate SupervisorRuns(run: Run)
      reads `alive
    {
      run.supervision.Some? ==>
        run.supervision.value.state == SupRunning && run.supervision.value.owner.Some? && run.supervision.value.owner.value in alive
    }

    predicate MaySupervise(run: Option<Run>, id: RunId, package: nat)
      reads `alive
    {
      && run.Some? && run.value.id == id && run.value.supervision.Some? && SamePackage(run.value, package)
      && (run.value.supervision.value.owner.Some? ==> run.value.supervision.value.owner.value !in alive)
    }

    /** A supervisor from the same package takes over the run if the previous one is gone. */
    method Supervise(p: Pid, id: RunId, package: nat) returns (ok: bool)
      requires Valid() && p in alive
      modifies `active
      ensures Valid()
      ensures ok <==> MaySupervise(old(active), id, package)
      ensures active == if ok then Some(old(active).value.(supervision := Some(old(active).value.supervision.value.(owner := Some(p))))) else old(active)
    {
      ok := false;
      if active.None? || active.value.id != id || active.value.supervision.None? {
        return;
      }
      if active.value.package.Some? && active.value.package.value != package {
        return;
      }
      var supervision := active.value.supervision.value;
      if supervision.owner.Some? && supervision.owner.value in alive {
        return;
      }
      active := Some(active.value.(supervision := Some(supervision.(owner := Some(p)))));
      ok := true;
    }

    /** Record an outcome or the state of the supervision in the active run. */
    method Amend(run: Run)
      requires Valid() && active.Some? && run == active.value.(outcome := run.outcome, supervision := run.supervision)
      requires run.outcome.Some? ==> forall i | 0 <= i < |items| && items[i].contract.key == run.key :: MayReport(active.value, items[i], run.outcome.value)
      modifies `active
      ensures Valid() && active == Some(run)
    {
      hide Consistent;
      SameClaims(items, active.value, run, sequence);
      active := Some(run);
    }

    predicate Supervises(run: Option<Run>, p: Pid, id: RunId) {
      run.Some? && run.value.id == id && run.value.supervision.Some? && run.value.supervision.value.owner == Some(p)
    }

    /** The supervisor confirms that everything it owned has exited. A stopped run gets an
        outcome, and the seal of what its worker left, if it left anything. */
    method SupervisorFinish(p: Pid, id: RunId, stopped: Option<Status>, diff: Option<nat>, candidate: nat) returns (ok: bool)
      requires Valid() && (stopped.Some? ==> stopped.value in {Blocked, IntegrationBlocked})
      modifies `active, `items
      ensures Valid()
      ensures ok <==> Supervises(old(active), p, id)
      ensures !ok ==> active == old(active) && items == old(items)
      ensures ok ==>
                && active == Some(old(active).value.(outcome := if stopped.Some? then stopped else old(active).value.outcome,
                                                     supervision := Some(old(active).value.supervision.value.(state := SupExited))))
                && (stopped.None? ==> items == old(items))
                && (stopped.Some? ==> items == old(items[At(items, active.value.key) :=
                      Stopped(items[At(items, active.value.key)], stopped.value, id, diff, candidate)]))
    {
      ok := active.Some? && active.value.id == id && active.value.supervision.Some? && active.value.supervision.value.owner == Some(p);
      if ok {
        var exited := active.value.(supervision := Some(active.value.supervision.value.(state := SupExited)));
        if stopped.Some? {
          var x := At(items, active.value.key);
          var item := SealStopped(items[x], stopped.value, id, diff, candidate);
          Put(x, item);
          exited := exited.(outcome := stopped);
        }
        Amend(exited);
      }
    }

    /** Free the slot of a finished run, with every condition under which it is kept. */
    method Reconcile(now: int, groupAlive: bool)
      requires Valid()
      modifies `items, `active, `runs, `fault
      ensures Valid()
      ensures old(active).None? || !old(Finished(active.value, groupAlive)) ==>
                items == old(items) && active == old(active) && runs == old(runs) &&
                fault == (old(fault) || (active.Some? && Launching(active.value) && now - active.value.createdAt > 30000))
      ensures old(active).Some? && old(Finished(active.value, groupAlive)) ==>
                && active == None && runs == old(runs) + [old(active.value)] && fault == old(fault)
                && items == old(items[At(items, active.value.key) := Reconciled(items[At(items, active.value.key)], active.value)])
    {
      hide Consistent;
      if active.None? || (active.value.supervision.Some? && active.value.supervision.value.state != SupExited) {
        return;
      }
      var run := active.value;
      if run.worker.None? {
        fault := fault || now - run.createdAt > 30000;
        return;
      }
      if run.worker.value in alive || groupAlive {
        return;
      }
      ActiveItem();
      var item := items[At(items, run.key)];
      ReconciledSound(item, run);
      if run.outcome.None? {
        item := item.(status := Blocked, waiting := Some(NoOutcome));
      } else {
        item := item.(status := run.outcome.value, waiting := Some(Reported(0)));
      }
      if item.request.Some? && item.request.value.kind == run.kind {
        item := item.(request := None);
      }
      Release(item, run);
    }

    /** Free the slot: its run, as it ended, joins the history, and its item is replaced. */
    method Release(item: Item, ended: Run)
      requires Valid() && active.Some? && ended == active.value.(outcome := ended.outcome) && Listed(items, ended.key)
      requires ended.worker.Some? ==> ended.worker.value !in alive
      requires var was := items[At(items, ended.key)]; item.contract == was.contract && item.strategy == was.strategy
      requires Sound(None, item)
      modifies `items, `active, `runs
      ensures Valid() && active == None && runs == old(runs) + [ended] && items == old(items[At(items, ended.key) := item])
    {
      hide Consistent, Sound, Find;
      var x := At(items, ended.key);
      ReleaseKeeps(items, active.value, sequence, x, item);
      items := items[x := item];
      RecordRun(runs, ended);
      active, runs := None, runs + [ended];
    }

    lemma ActiveItem()
      requires Valid() && active.Some?
      ensures Listed(items, active.value.key)
      ensures var item := items[At(items, active.value.key)]; Sound(active, item) && Occupies(active, item)
    {
    }

    predicate Launching(run: Run) {
      run.worker.None? && (run.supervision.Some? ==> run.supervision.value.state == SupExited)
    }

    predicate Finished(run: Run, groupAlive: bool)
      reads `alive
    {
      && (run.supervision.Some? ==> run.supervision.value.state == SupExited)
      && run.worker.Some? && run.worker.value !in alive && !groupAlive
    }

    /** Explicit recovery: only when nothing that could still use the slot is alive. */
    method RecoverExecution(groupAlive: bool, descendants: bool) returns (ok: bool)
      requires Valid()
      modifies `items, `active, `runs
      ensures Valid()
      ensures ok <==> old(active).Some? && Abandoned(old(active).value, groupAlive, descendants)
      ensures !ok ==> items == old(items) && active == old(active) && runs == old(runs)
      ensures ok ==>
                && active == None && runs == old(runs) + [old(active.value).(outcome := Some(Blocked))]
                && items == old(items[At(items, active.value.key) := Halted(items[At(items, active.value.key)])])
    {
      ok := false;
      if active.None? {
        return;
      }
      var run := active.value;
      if run.supervision.Some? {
        var owner := run.supervision.value.owner;
        if (owner.Some? && owner.value in alive) || run.worker.None? || descendants {
          return;
        }
      }
      if run.worker.Some? {
        if run.worker.value in alive || groupAlive {
          return;
        }
      } else if run.launcher in alive {
        return;
      }
      ActiveItem();
      var item := items[At(items, run.key)];
      Release(item.(status := Blocked, waiting := Some(Interrupted), seal := item.seal.(run := None)),
              run.(outcome := Some(Blocked)));
      ok := true;
    }

    predicate Abandoned(run: Run, groupAlive: bool, descendants: bool)
      reads `alive
    {
      && (run.supervision.Some? ==>
            && (run.supervision.value.owner.Some? ==> run.supervision.value.owner.value !in alive)
            && run.worker.Some? && !descendants)
      && (if run.worker.Some? then run.worker.value !in alive && !groupAlive else run.launcher !in alive)
    }

    // ---------------------------------------------------------------- the worker

    /** A live registered worker owns the slot, whatever else happened since it registered. */
    lemma WorkerOwnsSlot(p: Pid, id: RunId, key: Key)
      requires Valid() && WorksOn(p, id, key)
      ensures active.Some? && active.value.id == id && active.value.key == key && active.value.worker == Some(p)
    {
    }

    /** Never two live workers, and each belongs to the active run. */
    lemma OneLiveWorker(a: RunId, b: RunId)
      requires Valid() && a in registered && b in registered && registered[a] in alive && registered[b] in alive
      ensures a == b && active.Some? && active.value.id == a && active.value.worker == Some(registered[a])
    {
    }

    /** Every reserved run is either the active one or in the history, never both, and once. */
    lemma ReservedOnce(id: RunId, i: nat, j: nat)
      requires Valid() && id in reserved
      ensures (active.Some? && active.value.id == id) <==> !Recorded(runs, id)
      ensures i < |runs| && j < |runs| && runs[i].id == id && runs[j].id == id ==> i == j
    {
      if i < j < |runs| || j < i < |runs| {
        assert runs[i].id != runs[j].id;
      }
    }

    /** Two retained workspaces are always both isolated: an exclusive one is alone. */
    lemma WorkspacesShareStrategy(i: nat, j: nat)
      requires Valid() && i < j < |items| && Holder(items[i]) && Holder(items[j])
      ensures items[i].strategy == Isolated && items[j].strategy == Isolated
    {
    }

    /** prepare records its workspace without looking at the slot. */
    method AssignRoot(p: Pid, id: RunId, key: Key, root: nat)
      requires Valid() && WorksOn(p, id, key)
      requires Listed(items, key) ==> !Unstarted(items[At(items, key)].status)
      requires active.Some? ==> active.value.outcome.None?
      modifies `items
      ensures Valid() && Listed(old(items), key)
      ensures items == old(items)[At(old(items), key) := old(items)[At(old(items), key)].(root := Some(root))]
    {
      WorkerOwnsSlot(p, id, key);
      var x := At(items, key);
      Put(x, items[x].(root := Some(root)));
    }

    /** seal binds the candidate to this run without looking at the slot. */
    method SealWorkspace(p: Pid, id: RunId, key: Key, diff: nat, candidate: nat)
      requires Valid() && WorksOn(p, id, key)
      modifies `items
      ensures Valid() && Listed(old(items), key)
      ensures var item := old(items)[At(old(items), key)];
              items == old(items)[At(old(items), key) := item.(seal := item.seal.(diff := Some(diff), run := Some(id), candidate := Some(candidate)))]
    {
      WorkerOwnsSlot(p, id, key);
      var x := At(items, key);
      Put(x, items[x].(seal := items[x].seal.(diff := Some(diff), run := Some(id), candidate := Some(candidate))));
    }

    /** integrate records its commit without looking at the slot. */
    method RecordCommit(p: Pid, id: RunId, key: Key, commit: nat)
      requires Valid() && WorksOn(p, id, key)
      modifies `items
      ensures Valid() && Listed(old(items), key)
      ensures var item := old(items)[At(old(items), key)];
              items == old(items)[At(old(items), key) := item.(seal := item.seal.(commit := Some(commit)))]
    {
      WorkerOwnsSlot(p, id, key);
      var x := At(items, key);
      Put(x, items[x].(seal := items[x].seal.(commit := Some(commit))));
    }

    /** Every other write of the worker asks for the slot first. */
    method SetState(id: RunId, key: Key, status: Status, waiting: Option<Reason>) returns (ok: bool)
      requires Valid() && (active.Some? && active.value.id == id ==> MayReportAs(key, status))
      modifies `items
      ensures Valid()
      ensures ok <==> active.Some? && active.value.id == id
      ensures !ok ==> items == old(items)
      ensures ok ==> Listed(old(items), key)
      ensures ok ==> items == old(items)[At(old(items), key) := old(items)[At(old(items), key)].(status := status, waiting := waiting)]
    {
      ok := active.Some? && active.value.id == id;
      if ok {
        var x := At(items, key);
        Put(x, items[x].(status := status, waiting := waiting));
      }
    }

    predicate MayReportAs(key: Key, status: Status)
      reads `active, `items
    {
      active.Some? && active.value.key == key && Listed(items, key) && MayReport(active.value, items[At(items, key)], status)
    }

    /** A failed startup check parks the contract; a started workspace is never parked. */
    method WaitForPrecondition(id: RunId, key: Key, readiness: Readiness) returns (ok: bool)
      requires Valid() && (active.Some? && active.value.id == id ==> active.value.key == key)
      modifies `items
      ensures Valid()
      ensures ok <==> active.Some? && active.value.id == id && old(items)[At(old(items), key)].root.None?
      ensures items == if ok then old(items)[At(old(items), key) := Parked(old(items)[At(old(items), key)], readiness)] else old(items)
    {
      ok := active.Some? && active.value.id == id && items[At(items, key)].root.None?;
      if ok {
        var x := At(items, key);
        var item := items[x];
        if item.precondition != Some(readiness.fingerprint) {
          item := item.(precondition := Some(readiness.fingerprint), status := WaitingPrecondition,
                        waiting := Some(Precondition(readiness.fingerprint)));
        }
        Put(x, item);
      }
    }

    /** A baseline attempt records when it may be retried; it has a workspace by then. */
    method RecordRecovery(id: RunId, key: Key, recovery: Recovery) returns (ok: bool)
      requires Valid() && (active.Some? && active.value.id == id ==> active.value.key == key && items[At(items, key)].root.Some?)
      modifies `items
      ensures Valid()
      ensures ok <==> active.Some? && active.value.id == id
      ensures items == if ok then old(items)[At(old(items), key) := old(items)[At(old(items), key)].(recovery := Some(recovery))] else old(items)
    {
      ok := active.Some? && active.value.id == id;
      if ok {
        var x := At(items, key);
        Put(x, items[x].(recovery := Some(recovery)));
      }
    }

    /** The durable outcome: the last write of a run. */
    method Finish(id: RunId, key: Key, status: Status) returns (ok: bool)
      requires Valid() && (active.Some? && active.value.id == id ==> MayReportAs(key, status))
      modifies `active
      ensures Valid()
      ensures ok <==> old(active).Some? && old(active).value.id == id
      ensures active == if ok then Some(old(active).value.(outcome := Some(status))) else old(active)
    {
      ok := active.Some? && active.value.id == id;
      if ok {
        Amend(active.value.(outcome := Some(status)));
      }
    }
  }

  // ---------------------------------------------------------------- an abort that comes too late

  /** An in-place contract with automatic commit, without dependencies or a start time, below schema 6. */
  predicate Plain(draft: Contract) {
    draft.autoCommit && draft.approved == InPlace && draft.schema == 5 && draft.notBefore.None? && draft.dependsOn == []
  }

  function Look(): Scan {
    Scan(InPlace, true, 0, 3, 0, 1, 0, None, 0, k => Readiness(true, 0))
  }

  /** The contract as its first run leaves it once the workspace exists. */
  function Started(draft: Contract, root: nat): Item {
    Granted(NewItem(draft, 1, 0), Look(), 1).(root := Some(root))
  }

  function FirstRun(draft: Contract, worker: Pid): Run {
    Run(1, draft.key, Execute, 0, worker, Some(worker), None, None, Some(0))
  }

  lemma SoleItem(item: Item)
    ensures Listed([item], item.contract.key) && At([item], item.contract.key) == 0
  {
    assert [item][0].contract.key == item.contract.key;
  }

  /** The one item of the queue may run, and the slot is free. */
  method TakeSole(q: TaskQueue, item: Item, id: RunId, launcher: Pid)
    requires q.Valid() && q.items == [item] && q.active == None && !q.fault && id !in q.reserved
    requires Eligible([item], q.paused, q.scope, Look(), 0) && !Holder(item)
    modifies q
    ensures q.Valid() && q.items == [Granted(item, Look(), id)]
    ensures q.active == Some(Run(id, item.contract.key, KindOf(item), 0, launcher, None, None, None, Some(0)))
    ensures !q.fault && q.reserved == old(q.reserved) + {id}
    ensures q.paused == old(q.paused) && q.scope == old(q.scope) && q.alive == old(q.alive) && q.runs == old(q.runs)
  {
    hide Chosen, Consistent, Granted, Find, Sound, Eligible, KindOf, TaskQueue.Valid;
    SingleChosen(item, q.paused, q.scope, Look(), id, launcher, None);
    var _ := q.Reserve(Look(), false, false, false, id, launcher, None);
  }

  /** A contract is approved in an empty queue. */
  method ApproveSole(draft: Contract, worker: Pid) returns (q: TaskQueue)
    requires Plain(draft)
    ensures fresh(q) && q.Valid() && q.items == [NewItem(draft, 1, 0)] && q.active == None && q.runs == []
    ensures !q.paused && !q.fault && q.scope == None && q.alive == {worker} && q.reserved == {}
  {
    hide Consistent, Find, Sound, TaskQueue.Valid;
    var desk := Desk(map[draft.key := draft], d => 0, c => true, c => true);
    q := new TaskQueue();
    q.Start(worker);
    var _ := q.Enqueue(draft.key, draft.digest, 0, desk, 0, 0);
  }

  /** The next reservation takes it. */
  method BeginRun(draft: Contract, worker: Pid) returns (q: TaskQueue)
    requires Plain(draft)
    ensures fresh(q) && q.Valid() && q.items == [Granted(NewItem(draft, 1, 0), Look(), 1)]
    ensures q.active == Some(FirstRun(draft, worker).(worker := None)) && q.runs == []
    ensures !q.paused && !q.fault && q.scope == None && q.alive == {worker} && q.reserved == {1}
  {
    hide Chosen, Consistent, Granted, Find, Sound, TaskQueue.Valid;
    q := ApproveSole(draft, worker);
    TakeSole(q, NewItem(draft, 1, 0), 1, worker);
  }

  /** A worker registers and makes the workspace. */
  method MakeWorkspace(q: TaskQueue, draft: Contract, worker: Pid, root: nat)
    requires q.Valid() && q.items == [Granted(NewItem(draft, 1, 0), Look(), 1)]
    requires q.active == Some(FirstRun(draft, worker).(worker := None)) && worker in q.alive
    requires Plain(draft)
    modifies q
    ensures q.Valid() && q.active == Some(FirstRun(draft, worker)) && q.items == [Started(draft, root)] && worker in q.alive
    ensures q.paused == old(q.paused) && q.fault == old(q.fault) && q.scope == old(q.scope) && q.reserved == old(q.reserved)
    ensures q.runs == old(q.runs)
  {
    hide Consistent, Find, Sound, TaskQueue.Valid;
    SoleItem(q.items[0]);
    var _ := q.RegisterWorker(worker, 1, None, 0);
    q.AssignRoot(worker, 1, draft.key, root);
  }

  /** An abort is accepted after the last look that integration takes at the requests; the run completes. */
  method CompleteRun(q: TaskQueue, draft: Contract, worker: Pid, root: nat)
    requires q.Valid() && q.items == [Started(draft, root)] && q.active == Some(FirstRun(draft, worker)) && q.runs == []
    requires Plain(draft)
    modifies q
    ensures q.Valid() && q.active == None && q.runs == [FirstRun(draft, worker).(outcome := Some(Completed))]
    ensures q.items == [Reconciled(Started(draft, root).(request := Some(Request(AbortTask, None, None))), q.runs[0])]
    ensures q.paused == old(q.paused) && q.fault == old(q.fault) && q.scope == old(q.scope) && q.reserved == old(q.reserved)
  {
    hide Consistent, Find, Sound, TaskQueue.Valid;
    var started := Started(draft, root);
    SoleItem(started);
    var _ := q.RequestOperation(draft.key, AbortTask, None, true, Evidence(false, NoLedger, NoLedger, NoLedger, false));
    var asked := started.(request := Some(Request(AbortTask, None, None)));
    assert q.items == [asked];
    SoleItem(asked);
    var _ := q.Finish(1, draft.key, Completed);
    EndRun(q, asked, FirstRun(draft, worker).(outcome := Some(Completed)));
  }

  /** The worker exits, and the slot is freed. */
  method EndRun(q: TaskQueue, item: Item, run: Run)
    requires q.Valid() && q.items == [item] && q.active == Some(run) && q.runs == []
    requires item.contract.key == run.key && run.worker.Some? && run.supervision.None?
    modifies q
    ensures q.Valid() && q.active == None && q.runs == [run] && q.items == [Reconciled(item, run)]
    ensures q.paused == old(q.paused) && q.fault == old(q.fault) && q.scope == old(q.scope) && q.reserved == old(q.reserved)
  {
    hide Consistent, Find, Sound, TaskQueue.Valid;
    SoleItem(item);
    q.Die(run.worker.value);
    q.Reconcile(0, false);
  }

  /** It happens: the next reservation grants an abort run for the completed contract. */
  method LateAbort(draft: Contract, worker: Pid, root: nat) returns (q: TaskQueue)
    requires Plain(draft)
    ensures q.Valid() && |q.items| == 1 && q.items[0].contract.key == draft.key && q.items[0].status == Completed
    ensures q.runs == [FirstRun(draft, worker).(outcome := Some(Completed))]
    ensures q.active.Some? && q.active.value.key == draft.key && q.active.value.kind == AbortTask
  {
    hide Chosen, Consistent, Find, Sound, TaskQueue.Valid;
    q := BeginRun(draft, worker);
    MakeWorkspace(q, draft, worker, root);
    CompleteRun(q, draft, worker, root);
    TakeSole(q, q.items[0], 2, worker);
  }
}

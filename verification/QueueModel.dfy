/** The queue document: approved items, the one execution slot, and the scheduler's
    decision as a function of the document it observed. */
module QueueModel {
  import opened Options

  type Key = nat
  type TaskId = nat
  type RunId = nat
  type Pid = nat

  datatype Strategy = InPlace | Isolated
  datatype Kind = Execute | Integrate | Revalidate | ResumeTask | ResumeReview | AbortTask | Recover | RetryBaseline
  datatype Status =
    | Queued | WaitingPrecondition | Claimed | Running(phase: nat)
    | AwaitingHuman | ReadyToCommit | Blocked | TestFailed | NeedsHuman | IntegrationBlocked | BaselineReview
    | Completed | Cancelled | Aborted | Superseded

  datatype Reason =
    | ScopeNeedsSupervision | BudgetExhausted | Backoff | NotSealed | Behind(task: TaskId) | AutoCommitUnsupported
    | PolicyChanged | Scheduled | NeedsDependency(task: TaskId) | Capacity | NotAuthorized | Leased(task: TaskId)
    | Precondition(fingerprint: nat) | Interrupted | NoOutcome | Reported(note: nat)

  /** The stage whose environment failure a recovery is bound to. */
  datatype Phase = Green | Review | Integration
  datatype Request = Request(kind: Kind, candidate: Option<nat>, bound: Option<Phase>)
  datatype Recovery = Recovery(nextRunAt: Option<int>, deadline: int)

  /** The approved draft: never changes once enqueued. */
  datatype Contract = Contract(
    key: Key, taskId: TaskId, autoCommit: bool, approved: Strategy, schema: nat, isolatedAuto: bool,
    notBefore: Option<int>, dependsOn: seq<TaskId>, digest: nat, sequence: nat)

  /** The last seal of the workspace and the commit it led to. */
  datatype Seal = Seal(diff: Option<nat>, run: Option<RunId>, candidate: Option<nat>, commit: Option<nat>)

  datatype Item = Item(
    contract: Contract, strategy: Strategy, priority: int, revoked: bool, intact: bool,
    status: Status, waiting: Option<Reason>, runId: Option<RunId>, root: Option<nat>, request: Option<Request>,
    seal: Seal, recovery: Option<Recovery>, precondition: Option<nat>)

  datatype SupervisionState = SupRunning | SupStopping | SupBlocked | SupExited
  datatype Supervision = Supervision(state: SupervisionState, owner: Option<Pid>, token: nat)
  datatype Run = Run(id: RunId, key: Key, kind: Kind, createdAt: int, launcher: Pid, worker: Option<Pid>,
                     outcome: Option<Status>, supervision: Option<Supervision>, package: Option<nat>)

  datatype Scope = Scope(trial: nat, keys: set<Key>, expires: int, cleanupExpires: int)
  datatype Readiness = Readiness(ok: bool, fingerprint: nat)

  /** Everything a reservation reads outside the queue document. */
  datatype Scan = Scan(strategy: Strategy, unitTests: bool, retained: nat, maxWorkspaces: nat, bytes: nat, maxBytes: nat,
                       now: int, lease: Option<TaskId>, package: nat, ready: Key -> Readiness)

  predicate Terminal(s: Status) { s in {Completed, Cancelled, Aborted, Superseded} }
  predicate Unstarted(s: Status) { s in {Queued, WaitingPrecondition} }
  predicate Holder(i: Item) { i.root.Some? && !Terminal(i.status) }
  predicate Continuous(i: Item) { i.contract.schema == 8 }

  predicate IsolatedAutoAuthorized(i: Item) {
    i.strategy == Isolated && i.contract.autoCommit && Continuous(i) && i.contract.isolatedAuto
  }

  predicate Authorized(i: Item) {
    !i.revoked && i.intact &&
    (i.strategy == InPlace || !i.contract.autoCommit || (i.contract.approved == Isolated && IsolatedAutoAuthorized(i)))
  }

  predicate Requests(i: Item, k: Kind) { i.request.Some? && i.request.value.kind == k }

  predicate ScopeAllows(scope: Option<Scope>, key: Key, cleanup: bool, now: int) {
    scope.Some? ==> key in scope.value.keys && now < if cleanup then scope.value.cleanupExpires else scope.value.expires
  }

  predicate TaskCompleted(items: seq<Item>, t: TaskId) {
    exists i | 0 <= i < |items| :: items[i].contract.taskId == t && items[i].status == Completed
  }

  /** The first dependency that is not completed, as find() returns it. */
  function MissingDependency(items: seq<Item>, deps: seq<TaskId>): (r: Option<TaskId>)
    ensures r.None? <==> forall t | t in deps :: TaskCompleted(items, t)
    ensures r.Some? ==> r.value in deps && !TaskCompleted(items, r.value)
  {
    if deps == [] then None
    else if !TaskCompleted(items, deps[0]) then Some(deps[0])
    else MissingDependency(items, deps[1..])
  }

  /** The item that holds the repository in place, if any: the first one in document order. */
  function Fixed(items: seq<Item>): (r: Option<Item>)
    ensures r.None? <==> forall i | i in items :: !(Holder(i) && i.strategy == InPlace)
    ensures r.Some? ==> r.value in items && Holder(r.value) && r.value.strategy == InPlace
  {
    if items == [] then None
    else if Holder(items[0]) && items[0].strategy == InPlace then Some(items[0])
    else Fixed(items[1..])
  }

  // ---------------------------------------------------------------- candidates and their order

  /** 0: explicit requests, 1: due automatic retries, 2: pending contracts. */
  function Tier(i: Item, paused: bool): Option<nat> {
    if i.request.Some? && (!paused || i.request.value.kind == AbortTask) then Some(0)
    else if !paused && i.request.None? && i.status == Blocked && i.contract.schema >= 5 && i.recovery.Some? && i.recovery.value.nextRunAt.Some? then Some(1)
    else if !paused && Unstarted(i.status) then Some(2)
    else None
  }

  /** The scheduling order: tier first, then priority for pending contracts, then enqueue sequence. */
  predicate Precedes(a: Item, b: Item, paused: bool) {
    var x, y := Tier(a, paused), Tier(b, paused);
    x.Some? && y.Some? &&
    (x.value < y.value ||
     (x.value == y.value &&
      if x.value == 2 then a.priority > b.priority || (a.priority == b.priority && a.contract.sequence < b.contract.sequence)
      else a.contract.sequence < b.contract.sequence))
  }

  ghost predicate Identified(items: seq<Item>) {
    forall i, j | 0 <= i < j < |items| :: items[i].contract.key != items[j].contract.key && items[i].contract.sequence != items[j].contract.sequence
  }

  ghost predicate Indexes(items: seq<Item>, order: seq<nat>) {
    forall a | 0 <= a < |order| :: order[a] < |items|
  }

  /** Every index holds an item of the tier, and no index repeats. */
  ghost predicate OneTier(items: seq<Item>, paused: bool, tier: nat, order: seq<nat>) {
    && Indexes(items, order)
    && (forall a | 0 <= a < |order| :: Tier(items[order[a]], paused) == Some(tier))
    && (forall a, b | 0 <= a < b < |order| :: order[a] != order[b])
  }

  ghost predicate Ordered(items: seq<Item>, paused: bool, order: seq<nat>) {
    && Indexes(items, order)
    && (forall a, b | 0 <= a < b < |order| :: Precedes(items[order[a]], items[order[b]], paused))
  }

  function Select(items: seq<Item>, paused: bool, tier: nat, n: nat): (r: seq<nat>)
    requires n <= |items|
    ensures forall a | 0 <= a < |r| :: r[a] < n
  {
    if n == 0 then [] else
      var rest := Select(items, paused, tier, n - 1);
      if Tier(items[n - 1], paused) == Some(tier) then rest + [n - 1] else rest
  }

  lemma OneTierNext(items: seq<Item>, paused: bool, tier: nat, rest: seq<nat>, x: nat)
    requires OneTier(items, paused, tier, rest) && (forall a | 0 <= a < |rest| :: rest[a] < x)
    requires x < |items| && Tier(items[x], paused) == Some(tier)
    ensures OneTier(items, paused, tier, rest + [x])
  {
    hide Tier;
  }

  /** The selection holds exactly the items of the tier. */
  lemma {:induction false} SelectsTier(items: seq<Item>, paused: bool, tier: nat, n: nat)
    requires n <= |items|
    ensures OneTier(items, paused, tier, Select(items, paused, tier, n))
    ensures forall i: nat | i < n && Tier(items[i], paused) == Some(tier) :: i in Select(items, paused, tier, n)
  {
    hide Tier, OneTier;
    if n == 0 {
      NoneOfTier(items, paused, tier);
    } else {
      SelectsTier(items, paused, tier, n - 1);
      var rest, x: nat := Select(items, paused, tier, n - 1), n - 1;
      if Tier(items[x], paused) == Some(tier) {
        OneTierNext(items, paused, tier, rest, x);
        assert (rest + [x])[|rest|] == x;
      }
    }
  }

  lemma NoneOfTier(items: seq<Item>, paused: bool, tier: nat)
    ensures OneTier(items, paused, tier, [])
  {
  }

  /** Array.sort with the comparator of one tier, by insertion. */
  function Insert(items: seq<Item>, paused: bool, order: seq<nat>, x: nat): (r: seq<nat>)
    requires x < |items| && Indexes(items, order)
    ensures Indexes(items, r) && multiset(r) == multiset(order) + multiset{x}
  {
    if order == [] then [x]
    else if Precedes(items[x], items[order[0]], paused) then [x] + order
    else
      assert order == [order[0]] + order[1..];
      [order[0]] + Insert(items, paused, order[1..], x)
  }

  function Sort(items: seq<Item>, paused: bool, some: seq<nat>): (r: seq<nat>)
    requires Indexes(items, some)
    ensures Indexes(items, r) && multiset(r) == multiset(some)
  {
    if some == [] then [] else
      assert some == [some[0]] + some[1..];
      Insert(items, paused, Sort(items, paused, some[1..]), some[0])
  }

  function OfTier(items: seq<Item>, paused: bool, tier: nat): (r: seq<nat>)
    ensures Indexes(items, r)
  {
    Sort(items, paused, Select(items, paused, tier, |items|))
  }

  function Candidates(items: seq<Item>, paused: bool): (r: seq<nat>)
    ensures Indexes(items, r)
  {
    OfTier(items, paused, 0) + OfTier(items, paused, 1) + OfTier(items, paused, 2)
  }

  lemma MemberOf(order: seq<nat>, sorted: seq<nat>)
    requires multiset(order) == multiset(sorted)
    ensures forall i: nat :: i in order <==> i in sorted
  {
    forall i: nat
      ensures i in order <==> i in sorted
    {
      assert i in order <==> i in multiset(order);
      assert i in sorted <==> i in multiset(sorted);
    }
  }

  lemma {:induction false} InsertOrdered(items: seq<Item>, paused: bool, tier: nat, order: seq<nat>, x: nat)
    requires Identified(items) && x < |items| && Tier(items[x], paused) == Some(tier)
    requires OneTier(items, paused, tier, order) && x !in order && Ordered(items, paused, order)
    ensures Ordered(items, paused, Insert(items, paused, order, x))
  {
    if order == [] {
    } else if Precedes(items[x], items[order[0]], paused) {
      forall b | 0 < b < |order|
        ensures Precedes(items[x], items[order[b]], paused)
      {
        assert Precedes(items[order[0]], items[order[b]], paused);
      }
    } else {
      var rest := order[1..];
      assert order[0] != x;
      assert Precedes(items[order[0]], items[x], paused);
      InsertOrdered(items, paused, tier, rest, x);
      HeadPrecedes(items, paused, order, x);
    }
  }

  lemma ConsOrdered(items: seq<Item>, paused: bool, first: nat, rest: seq<nat>)
    requires first < |items| && Ordered(items, paused, rest)
    requires forall b | 0 <= b < |rest| :: Precedes(items[first], items[rest[b]], paused)
    ensures Ordered(items, paused, [first] + rest)
  {
  }

  lemma AppendOrdered(items: seq<Item>, paused: bool, x: seq<nat>, y: seq<nat>, tier: nat)
    requires Ordered(items, paused, x) && Ordered(items, paused, y)
    requires forall a | 0 <= a < |x| :: var t := Tier(items[x[a]], paused); t.Some? && t.value < tier
    requires forall b | 0 <= b < |y| :: Tier(items[y[b]], paused) == Some(tier)
    ensures Ordered(items, paused, x + y)
  {
  }

  lemma HeadPrecedes(items: seq<Item>, paused: bool, order: seq<nat>, x: nat)
    requires Ordered(items, paused, order) && order != [] && x < |items| && Precedes(items[order[0]], items[x], paused)
    requires Ordered(items, paused, Insert(items, paused, order[1..], x))
    ensures Ordered(items, paused, [order[0]] + Insert(items, paused, order[1..], x))
  {
    var rest := order[1..];
    var r := Insert(items, paused, rest, x);
    forall b | 0 <= b < |r|
      ensures Precedes(items[order[0]], items[r[b]], paused)
    {
      assert r[b] in multiset(r);
      assert r[b] == x || r[b] in rest;
      if r[b] != x {
        var c :| 0 <= c < |rest| && rest[c] == r[b];
        assert rest[c] == order[c + 1];
      }
    }
    ConsOrdered(items, paused, order[0], r);
  }

  lemma {:induction false} SortOrdered(items: seq<Item>, paused: bool, tier: nat, some: seq<nat>)
    requires Identified(items) && OneTier(items, paused, tier, some)
    ensures Ordered(items, paused, Sort(items, paused, some)) && OneTier(items, paused, tier, Sort(items, paused, some))
  {
    if some != [] {
      SortOrdered(items, paused, tier, some[1..]);
      MemberOf(some[1..], Sort(items, paused, some[1..]));
      InsertOrdered(items, paused, tier, Sort(items, paused, some[1..]), some[0]);
    }
    SortKeepsTier(items, paused, tier, some);
  }

  lemma SortKeepsTier(items: seq<Item>, paused: bool, tier: nat, some: seq<nat>)
    requires OneTier(items, paused, tier, some)
    ensures OneTier(items, paused, tier, Sort(items, paused, some))
  {
    var r := Sort(items, paused, some);
    forall a | 0 <= a < |r|
      ensures Tier(items[r[a]], paused) == Some(tier)
    {
      assert r[a] in multiset(r);
      assert r[a] in some;
    }
    forall a, b | 0 <= a < b < |r|
      ensures r[a] != r[b]
    {
      if r[a] == r[b] {
        TwiceCounted(r, a, b);
        OnceCounted(some, r[a]);
      }
    }
  }

  lemma TwiceCounted(s: seq<nat>, a: nat, b: nat)
    requires a < b < |s| && s[a] == s[b]
    ensures multiset(s)[s[a]] >= 2
  {
    assert s == s[..b] + [s[b]] + s[b + 1..];
    assert s[a] in s[..b];
  }

  lemma {:induction false} OnceCounted(s: seq<nat>, x: nat)
    requires forall a, b | 0 <= a < b < |s| :: s[a] != s[b]
    ensures multiset(s)[x] <= 1
  {
    if s != [] {
      OnceCounted(s[1..], x);
      assert s == [s[0]] + s[1..];
      assert s[0] !in s[1..];
    }
  }

  /** The candidate list holds every item that has a tier, in scheduling order. */
  lemma CandidatesOrdered(items: seq<Item>, paused: bool)
    requires Identified(items)
    ensures Ordered(items, paused, Candidates(items, paused))
    ensures forall i: nat | i < |items| && Tier(items[i], paused).Some? :: i in Candidates(items, paused)
    ensures forall a | 0 <= a < |Candidates(items, paused)| :: Tier(items[Candidates(items, paused)[a]], paused).Some?
  {
    var x := TierSorted(items, paused, 0);
    var y := TierSorted(items, paused, 1);
    var z := TierSorted(items, paused, 2);
    AppendOrdered(items, paused, x, y, 1);
    AppendOrdered(items, paused, x + y, z, 2);
    var r := x + y + z;
    forall i: nat | i < |items| && Tier(items[i], paused).Some?
      ensures i in r
    {
      assert i in x || i in y || i in z;
    }
  }

  lemma TierSorted(items: seq<Item>, paused: bool, tier: nat) returns (r: seq<nat>)
    requires Identified(items)
    ensures r == OfTier(items, paused, tier)
    ensures Ordered(items, paused, r) && OneTier(items, paused, tier, r)
    ensures forall i: nat | i < |items| && Tier(items[i], paused) == Some(tier) :: i in r
  {
    var some := Select(items, paused, tier, |items|);
    SelectsTier(items, paused, tier, |items|);
    r := Sort(items, paused, some);
    SortOrdered(items, paused, tier, some);
    MemberOf(some, r);
  }
}

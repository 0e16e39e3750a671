/** The supervisor of one worker: a loop that may be killed before any of its durable writes and
    restarted, over a durable record. It stops the worker at its deadlines, with TERM first and KILL after a grace
    period, and confirms the exit only when nothing it owns is left. */
module Supervision {
  import opened Options
  import opened Ownership

  datatype Policy = Policy(maxRunMs: nat, maxStageMs: nat, graceMs: nat)
  datatype Signal = Term | Kill
  datatype Reason = ClockBackwards | RunDeadline | StageDeadline(stage: nat) | NoOutcome | Trouble
  datatype Progress = Running | TermSent | KillSent | OwnershipBlocked | Exited
  datatype Event =
    | Started | Restarted | StageReached(stage: nat) | Confirmed | Blocked
    | Intended(signal: Signal, who: Identity, at: int)
    | Delivered(signal: Signal, who: Identity, at: int, sent: bool)

  datatype Record = Record(
    startedAt: int, deadline: int, stage: nat, stageStartedAt: int, stageDeadline: int,
    state: Progress, stopReason: Option<Reason>, termAt: Option<int>, killAt: Option<int>,
    known: seq<Row>, events: seq<Event>)

  const KNOWN_LIMIT := 512
  const KILL_LIMIT_MS := 10000
  const LAUNCH_LIMIT_MS := 30000

  function Min(a: int, b: int): (r: int)
    ensures r <= a && r <= b && r in {a, b}
  {
    if a < b then a else b
  }

  function Initial(policy: Policy, now: int): Record {
    Record(now, now + policy.maxRunMs, 0, now, now + policy.maxStageMs, Running, None, None, None, [], [])
  }

  function DeadlineReason(r: Record, now: int): Option<Reason> {
    if now < r.startedAt || now < r.stageStartedAt then Some(ClockBackwards)
    else if now >= r.deadline then Some(RunDeadline)
    else if now >= r.stageDeadline then Some(StageDeadline(r.stage))
    else None
  }

  // ---------------------------------------------------------------- the witness list

  predicate Knows(known: seq<Row>, who: Identity) {
    exists i | 0 <= i < |known| :: IdentityOf(known[i]) == who
  }

  function Without(known: seq<Row>, tree: seq<Row>): (r: seq<Row>)
    ensures |r| <= |known|
  {
    if known == [] then []
    else
      var rest := Without(known[1..], tree);
      if Knows(tree, IdentityOf(known[0])) then rest else [known[0]] + rest
  }

  /** slice(-n): the last n elements, or all of them if there are fewer; all of them for n = 0. */
  function Last<T>(s: seq<T>, n: nat): seq<T> {
    if n == 0 || |s| <= n then s else s[|s| - n..]
  }

  /** Forget the oldest witnesses first, and never one that is alive now. */
  function Merge(known: seq<Row>, tree: seq<Row>): (r: seq<Row>)
    requires |tree| <= INVENTORY_LIMIT
    ensures |r| <= KNOWN_LIMIT
    ensures forall i | 0 <= i < |tree| :: Knows(r, IdentityOf(tree[i]))
  {
    var kept := Last(Without(known, tree), KNOWN_LIMIT - |tree|);
    assert forall i | 0 <= i < |tree| :: (kept + tree)[|kept| + i] == tree[i];
    kept + tree
  }

  lemma {:induction false} WithoutKeeps(known: seq<Row>, tree: seq<Row>, i: nat)
    requires i < |known| && !Knows(tree, IdentityOf(known[i]))
    ensures known[i] in Without(known, tree)
  {
    if i > 0 {
      WithoutKeeps(known[1..], tree, i - 1);
    }
  }

  /** As long as there is room no witness is forgotten, but for the newer row of the same process. */
  lemma MergeForgetsNothing(known: seq<Row>, tree: seq<Row>, i: nat)
    requires |tree| <= INVENTORY_LIMIT && |known| + |tree| <= 512 && i < |known|
    ensures known[i] in Merge(known, tree) || Knows(tree, IdentityOf(known[i]))
    ensures forall row | row in tree :: row in Merge(known, tree)
  {
    if !Knows(tree, IdentityOf(known[i])) {
      WithoutKeeps(known, tree, i);
    }
  }

  /** The processes of the inventory that were never witnessed. */
  function Fresh(known: seq<Row>, tree: seq<Row>): (r: seq<Row>)
    ensures r == [] <==> forall i | 0 <= i < |tree| :: Knows(known, IdentityOf(tree[i]))
  {
    if tree == [] then []
    else
      var rest := Fresh(known, tree[1..]);
      assert forall i | 0 < i < |tree| :: tree[i] == tree[1..][i - 1];
      if Knows(known, IdentityOf(tree[0])) then rest else [tree[0]] + rest
  }

  /** The rows of the worker, or all the others, in the order of the inventory. */
  function Those(tree: seq<Row>, worker: Pid, itself: bool): (r: seq<Row>)
    ensures forall i | 0 <= i < |r| :: (r[i].pid == worker) == itself
  {
    if tree == [] then []
    else if (tree[0].pid == worker) == itself then [tree[0]] + Those(tree[1..], worker, itself)
    else Those(tree[1..], worker, itself)
  }

  /** The worker goes first, so that it cannot start a new stage while its children stop. */
  function WorkerFirst(tree: seq<Row>, worker: Pid): seq<Row> {
    Those(tree, worker, true) + Those(tree, worker, false)
  }

  lemma {:induction false} Parted(tree: seq<Row>, worker: Pid)
    ensures multiset(Those(tree, worker, true)) + multiset(Those(tree, worker, false)) == multiset(tree)
  {
    if tree != [] {
      Parted(tree[1..], worker);
      assert tree == [tree[0]] + tree[1..];
    }
  }

  lemma WorkerGoesFirst(tree: seq<Row>, worker: Pid)
    ensures var r := WorkerFirst(tree, worker);
            && multiset(r) == multiset(tree)
            && forall i, j | 0 <= i < j < |r| && r[j].pid == worker :: r[i].pid == worker
  {
    Parted(tree, worker);
  }

  // ---------------------------------------------------------------- what the record keeps

  predicate SameDelivery(a: Event, b: Event) {
    a.Delivered? && b.Delivered? && a.signal == b.signal && a.who == b.who
  }

  predicate DeliveredTo(events: seq<Event>, signal: Signal, who: Identity) {
    exists i | 0 <= i < |events| :: events[i].Delivered? && events[i].signal == signal && events[i].who == who
  }

  /** The record of a signal to each process is written once. */
  ghost predicate DeliveredOnce(events: seq<Event>) {
    forall i, j | 0 <= i < j < |events| :: !SameDelivery(events[i], events[j])
  }

  predicate IsSignal(e: Event) { e.Intended? || e.Delivered? }

  /** No KILL before the grace period after TERM, and no signal but to a process once inventoried. */
  ghost predicate Justified(r: Record, graceMs: nat, owned: set<Identity>, e: Event) {
    IsSignal(e) ==>
      && r.termAt.Some? && r.stopReason.Some? && e.who in owned
      && (e.signal == Kill ==> r.killAt.Some? && e.at >= r.termAt.value + graceMs)
  }

  /** Last: the latest clock reading of any supervisor. */
  ghost predicate Sound(r: Record, graceMs: nat, owned: set<Identity>, last: int) {
    && |r.known| <= 512
    && DeliveredOnce(r.events)
    && (forall i | 0 <= i < |r.events| :: Justified(r, graceMs, owned, r.events[i]))
    && (r.killAt.Some? ==> r.termAt.Some? && r.termAt.value + graceMs <= r.killAt.value <= last)
    && (r.state in {TermSent, KillSent} ==> r.termAt.Some? && r.stopReason.Some?)
    && (r.state == Running ==> r.termAt.None?)
    && (r.state in {Running, TermSent} ==> r.killAt.None?)
    && (r.state == KillSent ==> r.killAt.Some?)
  }

  function Rank(p: Progress): nat {
    match p case Running => 0 case TermSent => 1 case KillSent => 2 case OwnershipBlocked => 3 case Exited => 3
  }

  /** What later records keep of earlier ones: deadlines are not extended, TERM and KILL have one
      time each, the first stop reason stays unless ownership fails, and evidence is only added. */
  predicate Keeps(a: Record, b: Record) {
    && b.startedAt == a.startedAt && b.deadline == a.deadline
    && (a.termAt.Some? ==> b.termAt == a.termAt)
    && (a.killAt.Some? ==> b.killAt == a.killAt)
    && (a.stopReason.Some? && b.state != OwnershipBlocked ==> b.stopReason == a.stopReason)
    && (a.stopReason.Some? ==> b.stopReason.Some?)
    && Rank(a.state) <= Rank(b.state) && (a.state in {OwnershipBlocked, Exited} ==> b == a.(events := b.events))
    && a.events <= b.events
  }

  /** Over any number of polls and restarts. */
  lemma KeepsTransitive(a: Record, b: Record, c: Record)
    requires Keeps(a, b) && Keeps(b, c)
    ensures Keeps(a, c)
  {
  }

  lemma SoundLater(r: Record, graceMs: nat, owned: set<Identity>, last: int, now: int)
    requires Sound(r, graceMs, owned, last) && last <= now
    ensures Sound(r, graceMs, owned, now)
  {
  }

  lemma AddEvent(r: Record, graceMs: nat, owned: set<Identity>, last: int, e: Event)
    requires Sound(r, graceMs, owned, last) && Justified(r, graceMs, owned, e)
    requires e.Delivered? ==> !DeliveredTo(r.events, e.signal, e.who)
    ensures Sound(r.(events := r.events + [e]), graceMs, owned, last)
  {
  }

  lemma StaysDelivered(events: seq<Event>, more: seq<Event>)
    ensures forall signal, who | DeliveredTo(events, signal, who) :: DeliveredTo(events + more, signal, who)
  {
    forall signal, who | DeliveredTo(events, signal, who)
      ensures DeliveredTo(events + more, signal, who)
    {
      var i :| 0 <= i < |events| && events[i].Delivered? && events[i].signal == signal && events[i].who == who;
      assert (events + more)[i] == events[i];
    }
  }

  predicate SignalTo(e: Event, signal: Signal, tree: seq<Row>) {
    IsSignal(e) && e.signal == signal && Knows(tree, e.who)
  }

  /** Every event after the first ones is about a process of the inventory. */
  ghost predicate OnlySignals(events: seq<Event>, before: seq<Event>, signal: Signal, tree: seq<Row>) {
    before <= events && forall k | |before| <= k < |events| :: SignalTo(events[k], signal, tree)
  }

  /** The loop has dealt with the first i processes of the inventory. */
  ghost predicate Signalled(events: seq<Event>, before: seq<Event>, signal: Signal, tree: seq<Row>, i: nat)
    requires i <= |tree|
  {
    OnlySignals(events, before, signal, tree[..i]) && forall j | 0 <= j < i :: DeliveredTo(events, signal, IdentityOf(tree[j]))
  }

  lemma SignalledWithin(events: seq<Event>, before: seq<Event>, signal: Signal, tree: seq<Row>, i: nat)
    requires i < |tree| && Signalled(events, before, signal, tree, i)
    ensures OnlySignals(events, before, signal, tree) && OnlySignals(events, before, signal, tree[..i + 1])
  {
  }

  lemma SignalledBefore(events: seq<Event>, before: seq<Event>, signal: Signal, tree: seq<Row>, i: nat)
    requires i < |tree| && Signalled(events, before, signal, tree, i) && DeliveredTo(before, signal, IdentityOf(tree[i]))
    ensures Signalled(events, before, signal, tree, i + 1)
  {
  }

  lemma SignalledNext(events: seq<Event>, before: seq<Event>, signal: Signal, tree: seq<Row>, i: nat, at: int)
    requires i < |tree| && Signalled(events, before, signal, tree, i)
    ensures var intended := events + [Intended(signal, IdentityOf(tree[i]), at)];
            && OnlySignals(intended, before, signal, tree)
            && (DeliveredTo(intended, signal, IdentityOf(tree[i])) ==> DeliveredTo(events, signal, IdentityOf(tree[i])))
            && forall sent :: Signalled(intended + [Delivered(signal, IdentityOf(tree[i]), at, sent)], before, signal, tree, i + 1)
  {
    var who := IdentityOf(tree[i]);
    SignalledWithin(events, before, signal, tree, i);
    assert IdentityOf(tree[..i + 1][i]) == who && IdentityOf(tree[i]) == who;
    var intended := events + [Intended(signal, who, at)];
    assert OnlySignals(intended, before, signal, tree[..i + 1]);
    forall sent
      ensures Signalled(intended + [Delivered(signal, who, at, sent)], before, signal, tree, i + 1)
    {
      var all := intended + [Delivered(signal, who, at, sent)];
      assert all[|intended|] == Delivered(signal, who, at, sent);
      StaysDelivered(events, [Intended(signal, who, at)]);
      StaysDelivered(intended, [Delivered(signal, who, at, sent)]);
      assert DeliveredTo(all, signal, who);
    }
  }

  lemma NotYetDelivered(before: seq<Event>, events: seq<Event>, signal: Signal, tree: seq<Row>, i: nat)
    requires before <= events && i < |tree| && !DeliveredTo(before, signal, IdentityOf(tree[i]))
    requires Distinct(tree)
    requires forall k | |before| <= k < |events| :: SignalTo(events[k], signal, tree[..i])
    ensures !DeliveredTo(events, signal, IdentityOf(tree[i]))
  {
  }

  /** Whoever was signalled since is in the inventory, and got this signal. */
  ghost predicate SignalsOnly(events: seq<Event>, before: seq<Event>, signal: Signal, tree: seq<Row>) {
    before <= events && forall k | |before| <= k < |events| && IsSignal(events[k]) :: SignalTo(events[k], signal, tree)
  }

  /** What one signalOwned observes. */
  datatype Observation = Observation(rows: seq<Row>, exits: bool, at: int)

  /** The pid belongs to another process now, or to one without a proof. */
  predicate Unprovable(o: Observation, who: Identity, witnesses: seq<Row>) {
    exists row | row in o.rows :: row.pid == who.pid && !(IdentityOf(row) == who && Proved(witnesses, row))
  }

  /** What is recorded of a signal is what was observed. */
  predicate Observed(o: Observation, e: Event, witnesses: seq<Row>)
    requires e.Delivered?
  {
    if e.sent then exists row | row in o.rows :: IdentityOf(row) == e.who && Proved(witnesses, row)
    else o.exits || !HasPid(o.rows, e.who.pid)
  }

  ghost predicate Backed(events: seq<Event>, before: seq<Event>, look: nat -> Observation, witnesses: seq<Row>) {
    forall k | |before| <= k < |events| && events[k].Delivered? :: exists j: nat :: Observed(look(j), events[k], witnesses)
  }

  lemma NothingBacked(events: seq<Event>, look: nat -> Observation, witnesses: seq<Row>)
    ensures Backed(events, events, look, witnesses)
  {
  }

  lemma BackedMore(events: seq<Event>, more: seq<Event>, before: seq<Event>, look: nat -> Observation, witnesses: seq<Row>, j: nat)
    requires Backed(events, before, look, witnesses) && events <= more
    requires forall k | |events| <= k < |more| && more[k].Delivered? :: Observed(look(j), more[k], witnesses)
    ensures Backed(more, before, look, witnesses)
  {
  }

  /** Some process of the inventory could not be signalled, because nothing proves any more that it is that one. */
  ghost predicate ProofLost(tree: seq<Row>, look: nat -> Observation, witnesses: seq<Row>) {
    exists j: nat, row | row in tree :: Unprovable(look(j), IdentityOf(row), witnesses)
  }

  function Identities(tree: seq<Row>): set<Identity> {
    set i | 0 <= i < |tree| :: IdentityOf(tree[i])
  }

  /** Whom the inventories listed. */
  function Listed(trees: seq<seq<Row>>): set<Identity> {
    if trees == [] then {} else Listed(trees[..|trees| - 1]) + Identities(trees[|trees| - 1])
  }

  lemma {:induction false} ListedSomewhere(trees: seq<seq<Row>>, who: Identity)
    ensures who in Listed(trees) <==> exists i | 0 <= i < |trees| :: who in Identities(trees[i])
  {
    if trees != [] {
      var before := trees[..|trees| - 1];
      ListedSomewhere(before, who);
      assert forall i | 0 <= i < |before| :: before[i] == trees[i];
    }
  }

  lemma ListedNothing(trees: seq<seq<Row>>)
    ensures Listed(trees + [[]]) == Listed(trees)
  {
    ListedMore(trees, []);
    assert Identities([]) == {};
  }

  lemma ListedMore(trees: seq<seq<Row>>, tree: seq<Row>)
    ensures Listed(trees + [tree]) == Listed(trees) + Identities(tree)
  {
    assert (trees + [tree])[..|trees|] == trees;
  }

  lemma {:induction false} OnceInDistinct(tree: seq<Row>, row: Row)
    requires Distinct(tree)
    ensures multiset(tree)[row] <= 1
  {
    if tree != [] {
      OnceInDistinct(tree[1..], row);
      assert tree == [tree[0]] + tree[1..];
      assert tree[0] !in tree[1..];
    }
  }

  lemma DistinctOrder(tree: seq<Row>, order: seq<Row>)
    requires multiset(order) == multiset(tree) && Distinct(tree)
    ensures Distinct(order)
  {
    forall i, j | 0 <= i < j < |order|
      ensures order[i].pid != order[j].pid
    {
      if order[i].pid == order[j].pid {
        assert order[i] in multiset(tree) && order[j] in multiset(tree);
        assert order == order[..j] + [order[j]] + order[j + 1..];
        assert order[i] in order[..j];
        OnceInDistinct(tree, order[i]);
      }
    }
  }

  lemma SameRows(tree: seq<Row>, order: seq<Row>)
    requires multiset(order) == multiset(tree) && Distinct(tree)
    ensures Distinct(order) && Identities(order) == Identities(tree)
    ensures forall row :: row in order <==> row in tree
  {
    forall row
      ensures row in order <==> row in tree
    {
      assert row in order <==> row in multiset(order);
      assert row in tree <==> row in multiset(tree);
    }
    forall who
      ensures who in Identities(order) <==> who in Identities(tree)
    {
      if who in Identities(order) {
        var i :| 0 <= i < |order| && IdentityOf(order[i]) == who;
        assert order[i] in tree;
      }
      if who in Identities(tree) {
        var i :| 0 <= i < |tree| && IdentityOf(tree[i]) == who;
        assert tree[i] in order;
      }
    }
    DistinctOrder(tree, order);
  }

  /** How a turn of the loop, or a part of one, ends: the loop goes on or is over, an exception is
      on its way to the handler, or the process was killed. */
  datatype Fate = GoesOn | Ends | Fails | Dies

  class Supervisor {
    const policy: Policy
    var record: Record
    var outcome: bool
    /** Local to one supervisor process. */
    var running: bool
    var launched: bool
    var previousClock: int
    var emptySnapshots: nat
    /** How many more durable writes this process lives to make, if it is killed in this poll. */
    var killedAfter: Option<nat>
    /** Every inventory so far, and where those of this process start. */
    ghost var trees: seq<seq<Row>>
    ghost var since: nat

    ghost predicate Valid()
      reads `record, `previousClock, `emptySnapshots, `trees, `since
    {
      && Sound(record, policy.graceMs, Listed(trees), previousClock)
      && since <= |trees| && emptySnapshots <= 1
      && (emptySnapshots == 1 ==> since < |trees| && trees[|trees| - 1] == [])
    }

    constructor (policy: Policy, now: int)
      ensures Valid() && this.policy == policy && record == Initial(policy, now) && previousClock == now && !outcome && running
      ensures record.startedAt == record.stageStartedAt == now && record.stage == 0 && record.state == Running
      ensures record.deadline == now + policy.maxRunMs && record.stageDeadline == now + policy.maxStageMs
      ensures record.stopReason.None? && record.termAt.None? && record.killAt.None? && record.known == [] && record.events == []
      ensures emptySnapshots == 0 && trees == [] && !launched
    {
      this.policy, record, outcome, running, launched := policy, Initial(policy, now), false, true, false;
      previousClock, emptySnapshots, killedAfter, trees, since := now, 0, None, [], 0;
    }

    /** A supervisor process takes over. Of its predecessor it knows only the record. */
    method Restart(now: int, launches: bool)
      requires Valid() && now >= previousClock
      modifies this
      ensures Valid() && Keeps(old(record), record) && record == old(record).(events := old(record).events + [Restarted])
      ensures trees == old(trees) && outcome == old(outcome) && previousClock == now
      ensures emptySnapshots == 0 && since == |trees| && launched == launches && running
    {
      AddEvent(record, policy.graceMs, Listed(trees), previousClock, Restarted);
      record := record.(events := record.events + [Restarted]);
      previousClock, emptySnapshots, since, launched, running := now, 0, |trees|, launches, true;
    }

    /** The worker's last act: it may happen between any two polls. */
    method ReportOutcome()
      requires Valid()
      modifies `outcome
      ensures Valid() && outcome
    {
      outcome := true;
    }

    // -------------------------------------------------------------- durable writes

    /** One transaction on the durable record, unless the process is killed first. */
    method Write(next: Record) returns (alive: bool)
      requires Valid() && running && Sound(next, policy.graceMs, Listed(trees), previousClock)
      modifies `record, `running, `killedAfter
      ensures Valid() && running == alive && record == if alive then next else old(record)
      ensures old(killedAfter).None? ==> alive && killedAfter.None?
    {
      alive := killedAfter != Some(0);
      if alive {
        record := next;
        killedAfter := if killedAfter.Some? then Some(killedAfter.value - 1) else None;
      } else {
        running := false;
      }
    }

    /** Any failure stops supervision without another signal. */
    method Block() returns (fate: Fate)
      requires Valid() && Active() && running
      modifies `record, `running, `killedAfter
      ensures Valid() && Keeps(old(record), record) && running == !fate.Dies? && (fate.Ends? || fate.Dies?)
      ensures record == if fate.Dies? then old(record) else
                old(record).(state := OwnershipBlocked, stopReason := Some(Trouble), events := old(record).events + [Blocked])
      ensures old(killedAfter).None? ==> running
    {
      AddEvent(record, policy.graceMs, Listed(trees), previousClock, Blocked);
      var alive := Write(record.(state := OwnershipBlocked, stopReason := Some(Trouble), events := record.events + [Blocked]));
      return if alive then Ends else Dies;
    }

    method Note(e: Event) returns (alive: bool)
      requires Valid() && running && Justified(record, policy.graceMs, Listed(trees), e)
      requires e.Delivered? ==> !DeliveredTo(record.events, e.signal, e.who)
      modifies `record, `running, `killedAfter
      ensures Valid() && running == alive && record == if alive then old(record).(events := old(record).events + [e]) else old(record)
      ensures alive && e.Delivered? ==> DeliveredTo(record.events, e.signal, e.who)
      ensures forall signal, who | DeliveredTo(old(record).events, signal, who) :: DeliveredTo(record.events, signal, who)
      ensures old(killedAfter).None? ==> alive && killedAfter.None?
    {
      AddEvent(record, policy.graceMs, Listed(trees), previousClock, e);
      StaysDelivered(record.events, [e]);
      assert (record.events + [e])[|record.events|] == e;
      alive := Write(record.(events := record.events + [e]));
    }

    // -------------------------------------------------------------- one poll

    /** One process of the inventory: skipped if an earlier poll already dealt with it. */
    method SignalOne(signal: Signal, ghost tree: seq<Row>, ghost i: nat, before: seq<Event>, who: Identity,
                     witnesses: seq<Row>, o: Observation)
      returns (fate: Fate)
      requires i < |tree| && who == IdentityOf(tree[i]) && who in Listed(trees) && Distinct(tree)
      requires Valid() && running && record.termAt.Some? && record.stopReason.Some? && Signalled(record.events, before, signal, tree, i)
      requires signal == Kill ==> record.killAt.Some? && o.at >= record.termAt.value + policy.graceMs
      modifies `record, `running, `killedAfter
      ensures Valid() && record == old(record).(events := record.events) && running == !fate.Dies? && !fate.Ends?
      ensures OnlySignals(record.events, before, signal, tree) && old(record).events <= record.events
      ensures fate.GoesOn? ==> Signalled(record.events, before, signal, tree, i + 1)
      ensures fate.Fails? ==> Unprovable(o, who, witnesses)
      ensures forall k | |old(record).events| <= k < |record.events| && record.events[k].Delivered? :: Observed(o, record.events[k], witnesses)
      ensures old(killedAfter).None? ==> running && killedAfter.None?
    {
      hide Valid, DeliveredTo;
      SignalledWithin(record.events, before, signal, tree, i);
      if DeliveredTo(before, signal, who) {
        SignalledBefore(record.events, before, signal, tree, i);
        return GoesOn;
      }
      NotYetDelivered(before, record.events, signal, tree, i);
      SignalledNext(record.events, before, signal, tree, i, o.at);
      var alive := Note(Intended(signal, who, o.at));
      if !alive {
        return Dies;
      }
      var d := SignalOwned(o.rows, who, witnesses, o.exits);
      if d.Unproved? {
        return Fails;
      }
      alive := Note(Delivered(signal, who, o.at, d.Sent?));
      return if alive then GoesOn else Dies;
    }

    /** The signalling loop. Only the events recorded before this poll are consulted, which is
        enough because the inventory lists every process once. */
    method SignalTree(signal: Signal, tree: seq<Row>, witnesses: seq<Row>, look: nat -> Observation) returns (fate: Fate)
      requires Valid() && running && record.termAt.Some? && record.stopReason.Some?
      requires Identities(tree) <= Listed(trees) && Distinct(tree)
      requires signal == Kill ==> record.killAt.Some? && forall k :: look(k).at >= record.termAt.value + policy.graceMs
      modifies `record, `running, `killedAfter
      ensures Valid() && record == old(record).(events := record.events) && running == !fate.Dies? && !fate.Ends?
      ensures OnlySignals(record.events, old(record).events, signal, tree)
      ensures fate.GoesOn? ==> forall i | 0 <= i < |tree| :: DeliveredTo(record.events, signal, IdentityOf(tree[i]))
      ensures fate.Fails? ==> ProofLost(tree, look, witnesses)
      ensures Backed(record.events, old(record).events, look, witnesses)
      ensures old(killedAfter).None? ==> running && killedAfter.None?
    {
      hide Valid, Backed, DeliveredTo, Unprovable, Observed, SignalTo;
      var before := record.events;
      NothingBacked(before, look, witnesses);
      var i := 0;
      while i < |tree|
        invariant i <= |tree| && Valid() && running && record == old(record).(events := record.events)
        invariant Signalled(record.events, before, signal, tree, i)
        invariant Backed(record.events, before, look, witnesses)
        invariant old(killedAfter).None? ==> killedAfter.None?
      {
        assert IdentityOf(tree[i]) in Identities(tree);
        ghost var events := record.events;
        fate := SignalOne(signal, tree, i, before, IdentityOf(tree[i]), witnesses, look(i));
        BackedMore(events, record.events, before, look, witnesses, i);
        if !fate.GoesOn? {
          return;
        }
        i := i + 1;
      }
      assert tree[..i] == tree;
      return GoesOn;
    }

    function SignalAt(now: int): Signal
      reads this
    {
      if record.termAt.Some? && now >= record.termAt.value + policy.graceMs then Kill else Term
    }

    /** The record of a stop: TERM and KILL are timed when they are first sent. */
    function Stopping(now: int, reason: Reason): Record
      reads this
    {
      var kill := SignalAt(now) == Kill;
      record.(
        stopReason := Some(reason),
        termAt := if record.termAt.None? then Some(now) else record.termAt,
        killAt := if kill && record.killAt.None? then Some(now) else record.killAt,
        state := if kill then KillSent else TermSent)
    }

    /** Ask every process of the inventory to stop: TERM until the grace period is over, then KILL. */
    method Stop(now: int, reason: Reason, tree: seq<Row>, worker: Pid, witnesses: seq<Row>,
                look: nat -> Observation) returns (fate: Fate)
      requires Valid() && running && Active() && now == previousClock && Identities(tree) <= Listed(trees) && Distinct(tree)
      requires record.stopReason in {None, Some(reason)} && forall k :: look(k).at >= now
      modifies `record, `running, `killedAfter
      ensures Valid() && Keeps(old(record), record) && Active() && running == !fate.Dies? && !fate.Ends?
      ensures OnlySignals(record.events, old(record).events, old(SignalAt(now)), tree)
      ensures fate.GoesOn? ==> record == old(Stopping(now, reason)).(events := record.events)
      ensures record == old(record) || record == old(Stopping(now, reason)).(events := record.events)
      ensures fate.Fails? ==> old(Overdue(record, now)) || ProofLost(tree, look, witnesses)
      ensures fate.GoesOn? ==> !old(Overdue(record, now))
      ensures Backed(record.events, old(record).events, look, witnesses)
      ensures fate.GoesOn? ==> forall i | 0 <= i < |tree| :: DeliveredTo(record.events, if record.killAt.Some? then Kill else Term, IdentityOf(tree[i]))
      ensures old(killedAfter).None? ==> running && killedAfter.None?
    {
      hide WorkerFirst, Identities;
      var signal := SignalAt(now);
      if record.killAt.Some? && now >= record.killAt.value + KILL_LIMIT_MS {
        return Fails;
      }
      var alive := Write(Stopping(now, reason));
      if !alive {
        return Dies;
      }
      var order := WorkerFirst(tree, worker);
      WorkerGoesFirst(tree, worker);
      SameRows(tree, order);
      fate := SignalTree(signal, order, witnesses, look);
      SameSignals(record.events, old(record).events, signal, tree, order);
      if fate.GoesOn? {
        forall i | 0 <= i < |tree|
          ensures DeliveredTo(record.events, signal, IdentityOf(tree[i]))
        {
          assert tree[i] in order;
          var j :| 0 <= j < |order| && order[j] == tree[i];
        }
      }
    }

    /** KILL was sent long enough ago. */
    predicate Overdue(r: Record, now: int) {
      r.killAt.Some? && now >= r.killAt.value + 10000
    }

    predicate Active()
      reads `record
    {
      record.state !in {OwnershipBlocked, Exited}
    }

    /** Record a new stage, whose deadline never lies beyond that of the run, and new witnesses. */
    method Follow(now: int, stage: nat, tree: seq<Row>, stopping: bool) returns (alive: bool)
      requires Valid() && running && Active() && |tree| <= INVENTORY_LIMIT && now == previousClock
      modifies `record, `running, `killedAfter
      ensures Valid() && Keeps(old(record), record) && Active() && running == alive
      ensures record.stopReason == old(record).stopReason && record.termAt == old(record).termAt && record.killAt == old(record).killAt
      ensures alive ==> forall i | 0 <= i < |tree| :: Knows(record.known, IdentityOf(tree[i]))
      ensures stage == old(record).stage || stopping ==> record == old(record).(known := record.known)
      ensures alive && stage != old(record).stage && !stopping ==>
                record.stage == stage && record.stageStartedAt == now && record.stageDeadline == Min(record.deadline, now + policy.maxStageMs)
      ensures record.events in {old(record).events, old(record).events + [StageReached(stage)]}
      ensures alive ==> record.known == if Fresh(old(record).known, tree) == [] then old(record).known else Merge(old(record).known, tree)
      ensures old(killedAfter).None? ==> alive && killedAfter.None?
    {
      hide Listed, Knows;
      alive := true;
      var newcomers := Fresh(record.known, tree);
      if stage != record.stage && !stopping {
        AddEvent(record, policy.graceMs, Listed(trees), previousClock, StageReached(stage));
        alive := Write(record.(events := record.events + [StageReached(stage)],
                               stage := stage, stageStartedAt := now, stageDeadline := Min(record.deadline, now + policy.maxStageMs)));
      }
      if alive && newcomers != [] {
        alive := Write(record.(known := Merge(record.known, tree)));
      }
    }

    /** The exit is confirmed; if the worker left no outcome, that is first made the reason for the stop. */
    method Confirm() returns (fate: Fate)
      requires Valid() && running && Active()
      modifies `record, `running, `killedAfter
      ensures Valid() && Keeps(old(record), record) && running == !fate.Dies? && (fate.Ends? || fate.Dies?)
      ensures fate.Ends? ==> outcome || record.stopReason.Some?
      ensures fate.Ends? ==> record == Unexplained(old(record)).(state := Exited, events := old(record).events + [Confirmed])
      ensures fate.Dies? ==> record == old(record) || record == Unexplained(old(record))
      ensures old(killedAfter).None? ==> running && killedAfter.None?
    {
      var alive := true;
      if !outcome && record.stopReason.None? {
        alive := Write(Unexplained(record));
      }
      if alive {
        AddEvent(record, policy.graceMs, Listed(trees), previousClock, Confirmed);
        alive := Write(record.(state := Exited, events := record.events + [Confirmed]));
      }
      return if alive then Ends else Dies;
    }

    /** Nothing owned was left in this poll. The second time in a row, the exit is confirmed. */
    method SeeNothing() returns (fate: Fate)
      requires Valid() && running && Active()
      modifies `record, `emptySnapshots, `trees, `running, `killedAfter
      ensures Valid() && Keeps(old(record), record) && trees == old(trees) + [[]] && running == !fate.Dies? && !fate.Fails?
      ensures old(emptySnapshots) == 0 ==> fate.GoesOn? && emptySnapshots == 1 && record == old(record)
      ensures old(emptySnapshots) == 1 ==> !fate.GoesOn? && (fate.Ends? <==> record.state == Exited)
      ensures record.state == Exited ==> outcome || record.stopReason.Some?
      ensures record.state == Exited ==> record == Unexplained(old(record)).(state := Exited, events := old(record).events + [Confirmed])
      ensures record.state != Exited ==> record == old(record) || record == Unexplained(old(record))
      ensures old(killedAfter).None? ==> running && killedAfter.None?
    {
      hide Sound, Listed;
      ListedNothing(trees);
      trees := trees + [[]];
      if emptySnapshots == 0 {
        emptySnapshots := 1;
        return GoesOn;
      }
      fate := Confirm();
    }

    function Unexplained(r: Record): Record
      reads `outcome
    {
      if !outcome && r.stopReason.None? then r.(stopReason := Some(NoOutcome)) else r
    }

    /** The processes that count as proved in this poll. */
    function Witnesses(tree: seq<Row>): seq<Row>
      reads `record
    {
      record.known + Fresh(record.known, tree)
    }

    /** A live inventory: follow it, and stop it when there is a reason to. */
    method SeeTree(now: int, stage: nat, tree: seq<Row>, worker: Pid, look: nat -> Observation) returns (fate: Fate)
      requires Valid() && running && Active() && tree != [] && |tree| <= INVENTORY_LIMIT && Distinct(tree) && now == previousClock
      requires forall k :: look(k).at >= now
      modifies `record, `emptySnapshots, `trees, `running, `killedAfter
      ensures Valid() && Keeps(old(record), record) && Active() && trees == old(trees) + [tree] && emptySnapshots == 0
      ensures running == !fate.Dies? && !fate.Ends?
      ensures SignalsOnly(record.events, old(record).events, old(SignalAt(now)), tree)
      ensures fate.GoesOn? ==> FullyFollowed(old(record), record, now, stage) && forall row | row in tree :: Handled(record, IdentityOf(row))
      ensures Timely(old(record), record, now)
      ensures fate.Fails? ==> old(Overdue(record, now)) || ProofLost(tree, look, old(Witnesses(tree)))
      ensures Backed(record.events, old(record).events, look, old(Witnesses(tree)))
      ensures old(killedAfter).None? ==> running && killedAfter.None?
    {
      hide Listed, Fresh, Merge, Knows, ProofLost, Observed, DeliveredTo, SignalTo, Identities;
      ListedMore(trees, tree);
      GrowListed(record, policy.graceMs, Listed(trees), Identities(tree), previousClock);
      emptySnapshots, trees := 0, trees + [tree];
      var reason := if record.stopReason.Some? then record.stopReason else DeadlineReason(record, now);
      var witnesses := record.known + Fresh(record.known, tree);
      var alive := Follow(now, stage, tree, reason.Some?);
      if !alive {
        return Dies;
      }
      fate := GoesOn;
      if reason.Some? {
        fate := Stop(now, reason.value, tree, worker, witnesses, look);
      }
    }

    /** There is a reason to stop exactly when there was one or a deadline has passed; with it KILL follows TERM
        once the grace period is over, and without it the record follows the stage of the worker. */
    predicate FullyFollowed(a: Record, b: Record, now: int, stage: nat) {
      && (b.stopReason.Some? <==>
            a.stopReason.Some? || now < a.startedAt || now < a.stageStartedAt || now >= a.deadline || now >= a.stageDeadline)
      && ReasonRecorded(a, b, now)
      && (b.stopReason.Some? ==> b.termAt.Some?)
      && (b.stopReason.Some? && a.termAt.Some? && now >= a.termAt.value + policy.graceMs ==> b.killAt.Some?)
      && (a.stopReason.Some? && a.killAt.Some? ==> now < a.killAt.value + 10000)
      && (b.stopReason.None? ==>
            && b.stage == stage && b.stageStartedAt == (if stage == a.stage then a.stageStartedAt else now)
            && b.stageDeadline == if stage == a.stage then a.stageDeadline else Min(a.deadline, now + policy.maxStageMs))
    }

    /** The first reason stays; a clock that went backwards comes before the deadline of the run, and that one
        before the deadline of the stage. */
    predicate ReasonRecorded(a: Record, b: Record, now: int) {
      var late, backwards := now >= a.deadline, now < a.startedAt || now < a.stageStartedAt;
      && (a.stopReason.Some? ==> b.stopReason == a.stopReason)
      && (a.stopReason.None? && backwards ==> b.stopReason == Some(ClockBackwards))
      && (a.stopReason.None? && !backwards && late ==> b.stopReason == Some(RunDeadline))
      && (a.stopReason.None? && !backwards && !late && now >= a.stageDeadline ==> b.stopReason == Some(StageDeadline(a.stage)))
    }

    /** A live process is witnessed and, if the worker is to stop, has the signal of the day on record. */
    predicate Handled(r: Record, who: Identity) {
      && Knows(r.known, who)
      && (r.stopReason.Some? ==> DeliveredTo(r.events, if r.killAt.Some? then Kill else Term, who))
    }

    /** TERM and KILL are dated at the poll that sends them, KILL only after the grace period. */
    predicate Timely(a: Record, b: Record, now: int) {
      && (b.termAt == a.termAt || b.termAt == Some(now))
      && (b.killAt == a.killAt || (b.killAt == Some(now) && a.termAt.Some? && now >= a.termAt.value + policy.graceMs))
    }

    /** Take the inventory and act on it. */
    method Look(now: int, worker: Identity, rows: seq<Row>, stage: nat, look: nat -> Observation) returns (fate: Fate)
      requires Valid() && running && Active() && Distinct(rows) && now == previousClock && forall k :: look(k).at >= now
      modifies `record, `emptySnapshots, `trees, `running, `killedAfter
      ensures Valid() && Keeps(old(record), record) && running == !fate.Dies?
      ensures if fate.Ends? then record.state == Exited else Active()
      ensures record.state == Exited ==> trees == old(trees) + [[]] && since < |old(trees)| && old(trees)[|old(trees)| - 1] == []
      ensures trees == old(trees) ==> fate.Fails? && record == old(record)
      ensures trees == old(trees) || (|trees| == |old(trees)| + 1 && old(trees) <= trees)
      ensures trees != old(trees) ==>
                if trees[|old(trees)|] != [] then emptySnapshots == 0
                else if old(emptySnapshots) == 0 then fate.GoesOn? && emptySnapshots == 1 else record.state == Exited || fate.Dies?
      ensures trees != old(trees) ==> forall row :: row in trees[|old(trees)|] <==>
                row in rows && Descends(rows, worker, old(record).known, row.pid)
      ensures SignalsOnly(record.events, old(record).events, old(SignalAt(now)), if trees == old(trees) then [] else trees[|old(trees)|])
      ensures fate.GoesOn? && trees[|old(trees)|] != [] ==>
                FullyFollowed(old(record), record, now, stage) && forall row | row in trees[|old(trees)|] :: Handled(record, IdentityOf(row))
      ensures Timely(old(record), record, now)
      ensures fate.Fails? ==>
                || Unclear(rows, worker, old(record).known) || old(Overdue(record, now))
                || (trees != old(trees) && ProofLost(trees[|old(trees)|], look, old(record).known + Fresh(old(record).known, trees[|old(trees)|])))
      ensures fate.GoesOn? ==> !Unclear(rows, worker, old(record).known)
      ensures old(killedAfter).None? ==> running && killedAfter.None?
    {
      hide Sound, Descends, DeliveredTo, Knows, Listed, DeadlineReason, SignalTo, Unclear, ProofLost, Overdue;
      var inventory := OwnedTree(rows, worker, record.known);
      if inventory.Refused? {
        return Fails;
      }
      if inventory.rows == [] {
        fate := SeeNothing();
      } else {
        fate := SeeTree(now, stage, inventory.rows, worker.pid, look);
      }
    }

    /** What a turn of the loop gives up for: the clock, a worker that never registered, an inventory that is
        refused, processes that outlive KILL, or one that is no longer the process that was listed. */
    ghost predicate CannotGoOn(r: Record, last: int, now: int, worker: Option<Identity>, rows: seq<Row>, look: nat -> Observation, tree: seq<Row>)
      reads `launched
    {
      || now < last
      || (worker.None? && !(launched && now < r.startedAt + Min(policy.maxRunMs, 30000)))
      || (worker.Some? && Unclear(rows, worker.value, r.known))
      || Overdue(r, now)
      || ProofLost(tree, look, r.known + Fresh(r.known, tree))
    }

    /** What an exception can interrupt: nothing was seen unless the inventory was taken. */
    method Turn(now: int, worker: Option<Identity>, rows: seq<Row>, stage: nat, look: nat -> Observation) returns (fate: Fate)
      requires Valid() && running && Active() && Distinct(rows) && forall k :: look(k).at >= now
      modifies `record, `previousClock, `emptySnapshots, `trees, `running, `killedAfter
      ensures Valid() && Keeps(old(record), record) && running == !fate.Dies? && previousClock >= old(previousClock)
      ensures if fate.Ends? then record.state == Exited else Active()
      ensures fate.GoesOn? ==> now >= old(previousClock) && (worker.Some? ==> trees != old(trees))
      ensures worker.None? && now >= old(previousClock) ==>
                trees == old(trees) && (fate.GoesOn? <==> launched && now < record.startedAt + Min(policy.maxRunMs, 30000))
      ensures record.state == Exited ==> trees == old(trees) + [[]] && since < |old(trees)| && old(trees)[|old(trees)| - 1] == []
      ensures trees == old(trees) ==> !fate.Dies? && record == old(record)
      ensures trees == old(trees) || (|trees| == |old(trees)| + 1 && old(trees) <= trees && worker.Some?)
      ensures trees != old(trees) ==>
                if trees[|old(trees)|] != [] then emptySnapshots == 0
                else if old(emptySnapshots) == 0 then fate.GoesOn? && emptySnapshots == 1 else record.state == Exited || fate.Dies?
      ensures trees != old(trees) ==> forall row :: row in trees[|old(trees)|] <==>
                row in rows && Descends(rows, worker.value, old(record).known, row.pid)
      ensures SignalsOnly(record.events, old(record).events, old(SignalAt(now)), if trees == old(trees) then [] else trees[|old(trees)|])
      ensures fate.Fails? ==>
                CannotGoOn(old(record), old(previousClock), now, worker, rows, look, if trees == old(trees) then [] else trees[|old(trees)|])
      ensures fate.GoesOn? && worker.Some? ==> !Unclear(rows, worker.value, old(record).known)
      ensures fate.GoesOn? && |trees| > |old(trees)| && trees[|old(trees)|] != [] ==>
                FullyFollowed(old(record), record, now, stage) && forall row | row in trees[|old(trees)|] :: Handled(record, IdentityOf(row))
      ensures Timely(old(record), record, now)
      ensures old(killedAfter).None? ==> running && killedAfter.None?
    {
      hide Valid, Keeps, Timely, SignalsOnly, DeadlineReason, FullyFollowed, Handled, Descends, Unclear, ProofLost, Overdue;
      NothingHappened(now, SignalAt(now));
      fate := Fails;
      if now >= previousClock {
        Tick(now);
        if worker.Some? {
          fate := Look(now, worker.value, rows, stage, look);
        } else if launched && now < record.startedAt + Min(policy.maxRunMs, LAUNCH_LIMIT_MS) {
          fate := GoesOn;
        }
      }
    }

    /** One turn of the loop, which the process may not survive. */
    method Poll(now: int, worker: Option<Identity>, rows: seq<Row>, stage: nat, look: nat -> Observation, killed: Option<nat>)
      returns (fate: Fate)
      requires Valid() && running && Distinct(rows) && forall k :: look(k).at >= now
      modifies `record, `previousClock, `emptySnapshots, `trees, `running, `killedAfter
      ensures Valid() && Keeps(old(record), record) && previousClock >= old(previousClock)
      ensures running == !fate.Dies? && !fate.Fails? && (killed.None? ==> running)
      ensures fate.Ends? <==> !Active()
      ensures fate.GoesOn? ==> now >= old(previousClock) && (worker.Some? ==> trees != old(trees))
      ensures old(Active()) && worker.None? && now >= old(previousClock) ==>
                trees == old(trees) && (fate.GoesOn? <==> launched && now < record.startedAt + Min(policy.maxRunMs, 30000))
      ensures record.state == Exited && old(record).state != Exited ==>
                trees == old(trees) + [[]] && since < |old(trees)| && old(trees)[|old(trees)| - 1] == []
      ensures trees == old(trees) || (|trees| == |old(trees)| + 1 && old(trees) <= trees && worker.Some?)
      ensures trees != old(trees) ==>
                if trees[|old(trees)|] != [] then emptySnapshots == 0
                else if old(emptySnapshots) == 0 then fate.GoesOn? && emptySnapshots == 1 else record.state == Exited || fate.Dies?
      ensures trees != old(trees) ==> forall row :: row in trees[|old(trees)|] <==>
                row in rows && Descends(rows, worker.value, old(record).known, row.pid)
      ensures SignalsOnly(record.events, old(record).events, old(SignalAt(now)), if trees == old(trees) then [] else trees[|old(trees)|])
      ensures record.state == OwnershipBlocked && old(Active()) ==>
                CannotGoOn(old(record), old(previousClock), now, worker, rows, look, if trees == old(trees) then [] else trees[|old(trees)|])
      ensures fate.GoesOn? && worker.Some? ==> !Unclear(rows, worker.value, old(record).known)
      ensures fate.GoesOn? && |trees| > |old(trees)| && trees[|old(trees)|] != [] ==>
                FullyFollowed(old(record), record, now, stage) && forall row | row in trees[|old(trees)|] :: Handled(record, IdentityOf(row))
      ensures Timely(old(record), record, now)
    {
      hide Valid, Keeps, Timely, SignalsOnly, DeadlineReason, FullyFollowed, Handled, Descends, Unclear, ProofLost, Overdue;
      killedAfter := killed;
      NothingHappened(now, SignalAt(now));
      if !Active() {
        return Ends;
      }
      fate := Turn(now, worker, rows, stage, look);
      if fate.Fails? {
        ghost var failed := record;
        fate := Block();
        StillKept(old(record), failed, now, old(SignalAt(now)), if trees == old(trees) then [] else trees[|old(trees)|]);
      }
    }

    method Tick(now: int)
      requires Valid() && now >= previousClock
      modifies `previousClock
      ensures Valid() && previousClock == now
    {
      SoundLater(record, policy.graceMs, Listed(trees), previousClock, now);
      previousClock := now;
    }

    lemma NothingHappened(now: int, signal: Signal)
      ensures Keeps(record, record) && Timely(record, record, now) && SignalsOnly(record.events, record.events, signal, [])
    {
    }

    /** Blocking adds to what happened before it. */
    lemma StillKept(start: Record, failed: Record, now: int, signal: Signal, tree: seq<Row>)
      requires Keeps(start, failed) && Timely(start, failed, now) && SignalsOnly(failed.events, start.events, signal, tree)
      requires Keeps(failed, record)
      requires record == failed ||
               record == failed.(state := OwnershipBlocked, stopReason := Some(Trouble), events := failed.events + [Blocked])
      ensures Keeps(start, record) && Timely(start, record, now) && SignalsOnly(record.events, start.events, signal, tree)
    {
      KeepsTransitive(start, failed, record);
    }
  }

  lemma GrowListed(r: Record, graceMs: nat, owned: set<Identity>, more: set<Identity>, last: int)
    requires Sound(r, graceMs, owned, last)
    ensures Sound(r, graceMs, owned + more, last)
  {
  }

  lemma SameSignals(events: seq<Event>, before: seq<Event>, signal: Signal, tree: seq<Row>, order: seq<Row>)
    requires OnlySignals(events, before, signal, order) && Identities(order) == Identities(tree)
    ensures OnlySignals(events, before, signal, tree)
  {
    forall k | |before| <= k < |events|
      ensures SignalTo(events[k], signal, tree)
    {
      assert events[k].who in Identities(order);
      var i :| 0 <= i < |tree| && IdentityOf(tree[i]) == events[k].who;
    }
  }

  /** Nobody was ever signalled whom no inventory had listed, with the same start time. */
  lemma SignalledWasInventoried(s: Supervisor, k: nat) returns (i: nat, row: Row)
    requires s.Valid() && k < |s.record.events| && IsSignal(s.record.events[k])
    ensures i < |s.trees| && row in s.trees[i] && IdentityOf(row) == s.record.events[k].who
  {
    var who := s.record.events[k].who;
    assert Justified(s.record, s.policy.graceMs, Listed(s.trees), s.record.events[k]);
    ListedSomewhere(s.trees, who);
    i :| 0 <= i < |s.trees| && who in Identities(s.trees[i]);
    var j :| 0 <= j < |s.trees[i]| && IdentityOf(s.trees[i][j]) == who;
    row := s.trees[i][j];
  }
}

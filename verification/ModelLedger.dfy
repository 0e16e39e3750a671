/** The durable ledger of model calls: every call is reserved before a process exists and completed
    after it is gone, and neither a restart nor a repeated command gets budget back. */
module ModelLedger {
  import opened Options

  datatype Role = Coder | Reviewer
  datatype StopReason = Exited | StepBudget | Deadline | InvalidEvents | OutputLimit | HostError | Cancelled
  datatype Result = Result(reason: StopReason, processesExited: bool, startedAt: int, endedAt: int)

  datatype Policy = Policy(maxContinuations: nat, maxCalls: nat, maxElapsedMs: nat)
  datatype Call = Call(
    id: nat, role: Role, cycle: nat, attempt: nat, startedAt: int, checkpoint: nat,
    continuationOf: Option<nat>, result: Option<Result>, stoppedCheckpoint: Option<nat>)
  datatype Ledger = Ledger(binding: nat, startedAt: int, deadline: int, continuations: nat, calls: seq<Call>)

  datatype Request = Request(
    binding: nat, checkpoint: nat, role: Role, cycle: nat, attempt: nat, continuationOf: Option<nat>, now: int, deadline: int)

  function Min(a: int, b: int): int { if a < b then a else b }

  predicate Finished(c: Call) {
    c.result.Some? && c.result.value.processesExited
  }

  predicate SameCycle(c: Call, role: Role, cycle: nat) {
    c.role == role && c.cycle == cycle
  }

  function Continuations(calls: seq<Call>): nat {
    if calls == [] then 0
    else Continuations(calls[..|calls| - 1]) + if calls[|calls| - 1].continuationOf.Some? then 1 else 0
  }

  // ---------------------------------------------------------------- what every ledger keeps

  /** A continuation takes up the coder call right before it, at the checkpoint where that stopped. */
  predicate Continues(previous: Call, c: Call) {
    && c.continuationOf == Some(previous.id) && c.role == Coder && previous.role == Coder && previous.cycle == c.cycle
    && Finished(previous) && previous.result.value.reason == StepBudget && previous.stoppedCheckpoint == Some(c.checkpoint)
  }

  /** A fresh invocation is the first of its cycle, or the first of its attempt for a reviewer. */
  predicate Fresh(earlier: seq<Call>, c: Call) {
    c.continuationOf == None &&
    forall i | 0 <= i < |earlier| :: !(SameCycle(earlier[i], c.role, c.cycle) && (c.role == Coder || earlier[i].attempt == c.attempt))
  }

  ghost predicate CallSound(calls: seq<Call>, i: nat)
    requires i < |calls|
  {
    && calls[i].id == i + 1
    && (i + 1 < |calls| ==> Finished(calls[i]))
    && (Fresh(calls[..i], calls[i]) || (i > 0 && Continues(calls[i - 1], calls[i])))
  }

  ghost predicate Sound(l: Ledger, policy: Policy) {
    && |l.calls| <= policy.maxCalls
    && l.continuations == Continuations(l.calls) <= policy.maxContinuations
    && (forall i | 0 <= i < |l.calls| :: CallSound(l.calls, i))
    && (forall i | 0 <= i < |l.calls| :: l.startedAt <= l.calls[i].startedAt < l.deadline)
  }

  /** The same call, perhaps completed since. */
  predicate Later(a: Call, b: Call) {
    b == a || (a.result.None? && Finished(b) && b == a.(result := b.result, stoppedCheckpoint := b.stoppedCheckpoint))
  }

  /** Budget is only ever used up: no call disappears or is reopened, and the deadline stays. */
  ghost predicate Grows(a: Ledger, b: Ledger) {
    && b.binding == a.binding && b.startedAt == a.startedAt && b.deadline == a.deadline
    && |a.calls| <= |b.calls| && a.continuations <= b.continuations
    && forall i | 0 <= i < |a.calls| :: Later(a.calls[i], b.calls[i])
  }

  lemma GrowsTransitive(a: Ledger, b: Ledger, c: Ledger)
    requires Grows(a, b) && Grows(b, c)
    ensures Grows(a, c)
  {
  }

  /** The coder calls of one cycle are a contiguous block: the first fresh, and each later one
      continuing its predecessor. */
  lemma {:induction false} CoderCallsContiguous(l: Ledger, policy: Policy, i: nat, j: nat, k: nat)
    requires Sound(l, policy) && i <= k <= j < |l.calls|
    requires l.calls[i].role == Coder && l.calls[j].role == Coder && l.calls[i].cycle == l.calls[j].cycle
    ensures l.calls[k].role == Coder && l.calls[k].cycle == l.calls[i].cycle
    ensures k > i ==> Continues(l.calls[k - 1], l.calls[k])
  {
    if i < j {
      assert CallSound(l.calls, j);
      assert l.calls[..j][i] == l.calls[i];
      assert Continues(l.calls[j - 1], l.calls[j]);
      if k < j {
        CoderCallsContiguous(l, policy, i, j - 1, k);
      }
    }
  }

  /** A reviewer is invoked once for each attempt of a cycle. */
  lemma ReviewerOnce(l: Ledger, policy: Policy, i: nat, j: nat)
    requires Sound(l, policy) && i < j < |l.calls| && l.calls[i].role == Reviewer && l.calls[j].role == Reviewer
    ensures l.calls[i].cycle != l.calls[j].cycle || l.calls[i].attempt != l.calls[j].attempt
  {
    assert CallSound(l.calls, j);
    assert l.calls[..j][i] == l.calls[i];
  }

  /** A call that was interrupted stays the last one until its exit is recorded. */
  lemma InterruptedBlocks(a: Ledger, b: Ledger, policy: Policy)
    requires Sound(a, policy) && Sound(b, policy) && Grows(a, b)
    requires a.calls != [] && |b.calls| > |a.calls|
    ensures Finished(b.calls[|a.calls| - 1])
  {
    assert CallSound(b.calls, |a.calls| - 1);
  }

  lemma AppendCall(l: Ledger, policy: Policy, c: Call)
    requires Sound(l, policy) && |l.calls| < policy.maxCalls && c.id == |l.calls| + 1 && c.result.None?
    requires forall i | 0 <= i < |l.calls| :: Finished(l.calls[i])
    requires l.startedAt <= c.startedAt < l.deadline
    requires Fresh(l.calls, c) || (l.calls != [] && Continues(l.calls[|l.calls| - 1], c) && l.continuations < policy.maxContinuations)
    ensures var l' := l.(calls := l.calls + [c], continuations := l.continuations + if c.continuationOf.Some? then 1 else 0);
            Sound(l', policy) && Grows(l, l')
  {
    var calls := l.calls + [c];
    assert calls[..|l.calls|] == l.calls;
    forall i | 0 <= i < |calls|
      ensures CallSound(calls, i)
    {
      if i < |l.calls| {
        assert CallSound(l.calls, i) && calls[..i] == l.calls[..i];
      }
    }
  }

  lemma FinishCall(l: Ledger, policy: Policy, c: Call)
    requires Sound(l, policy) && l.calls != [] && Finished(c)
    requires var last := l.calls[|l.calls| - 1]; last.result.None? && c == last.(result := c.result, stoppedCheckpoint := c.stoppedCheckpoint)
    ensures var l' := l.(calls := l.calls[|l.calls| - 1 := c]); Sound(l', policy) && Grows(l, l')
  {
    var n := |l.calls| - 1;
    var calls := l.calls[n := c];
    assert calls[..n] == l.calls[..n];
    forall i | 0 <= i < |calls|
      ensures CallSound(calls, i)
    {
      assert CallSound(l.calls, i) && calls[..i] == l.calls[..i];
    }
  }

  // ---------------------------------------------------------------- the ledger of a task

  /** What the outside answers during one turn of the loop. */
  datatype Turn = Turn(
    binding: nat, checkpoint: nat, now: int, deadline: int, allowed: bool, sealed: bool,
    dies: bool, result: Result, stoppedCheckpoint: nat, stateContinues: bool)

  class Task {
    const policy: Policy
    var ledger: Option<Ledger>

    ghost predicate Valid()
      reads this
    {
      ledger.Some? ==> Sound(ledger.value, policy)
    }

    ghost predicate Kept(before: Option<Ledger>)
      reads this
    {
      before.Some? ==> ledger.Some? && Grows(before.value, ledger.value)
    }

    constructor (policy: Policy)
      ensures Valid() && ledger == None && this.policy == policy
    {
      this.policy, ledger := policy, None;
    }

    function Opened(r: Request): Ledger
      reads this
    {
      if ledger.Some? then ledger.value else Ledger(r.binding, r.now, Min(r.deadline, r.now + policy.maxElapsedMs), 0, [])
    }

    /** Exactly when a call is reserved. */
    predicate Reservable(r: Request)
      reads this
    {
      var l := Opened(r);
      && l.binding == r.binding && l.startedAt <= r.now < Min(l.deadline, r.deadline)
      && |l.calls| < policy.maxCalls
      && (forall i | 0 <= i < |l.calls| :: Finished(l.calls[i]))
      && var c := NewCall(r, |l.calls| + 1);
         if r.continuationOf.Some? then
           l.calls != [] && Continues(l.calls[|l.calls| - 1], c) && l.continuations < policy.maxContinuations
         else Fresh(l.calls, c)
    }

    function NewCall(r: Request, id: nat): Call {
      Call(id, r.role, r.cycle, r.attempt, r.now, r.checkpoint, r.continuationOf, None, None)
    }

    /** The ledger that the first request opens is empty. */
    lemma OpenedSound(r: Request)
      requires Valid()
      ensures Sound(Opened(r), policy) && (ledger.Some? ==> Grows(ledger.value, Opened(r)))
    {
    }

    /** May the request go on where the last call stopped? */
    method MayContinue(previous: Call, r: Request) returns (may: bool)
      requires r.continuationOf.Some?
      ensures may <==> Continues(previous, NewCall(r, 0))
    {
      if r.role != Coder || previous.role != r.role || previous.cycle != r.cycle || previous.id != r.continuationOf.value {
        return false;
      }
      if previous.result.None? || previous.result.value.reason != StepBudget || !previous.result.value.processesExited {
        return false;
      }
      may := previous.stoppedCheckpoint == Some(r.checkpoint);
    }

    method Reserve(r: Request) returns (id: Option<nat>)
      requires Valid()
      modifies `ledger
      ensures Valid() && Kept(old(ledger))
      ensures id.Some? <==> old(Reservable(r))
      ensures id.None? ==> ledger == old(ledger)
      ensures id.Some? ==>
                && ledger.Some? && id.value == |ledger.value.calls|
                && ledger.value == old(Opened(r)).(calls := old(Opened(r)).calls + [NewCall(r, id.value)], continuations := ledger.value.continuations)
    {
      hide Sound, Grows;
      var l := Ledger(r.binding, r.now, Min(r.deadline, r.now + policy.maxElapsedMs), 0, []);
      if ledger.Some? {
        l := ledger.value;
      }
      KeptAtFirst(ledger);
      if l.binding != r.binding || r.now < l.startedAt || r.now >= l.deadline || r.now >= r.deadline {
        return None;
      }
      if |l.calls| >= policy.maxCalls {
        return None;
      }
      if exists i | 0 <= i < |l.calls| :: l.calls[i].result.None? || !l.calls[i].result.value.processesExited {
        assert exists i | 0 <= i < |l.calls| :: !Finished(l.calls[i]);
        return None;
      }
      var continuations := l.continuations;
      if r.continuationOf.Some? {
        if l.calls == [] {
          return None;
        }
        var may := MayContinue(l.calls[|l.calls| - 1], r);
        if !may || continuations >= policy.maxContinuations {
          return None;
        }
        continuations := continuations + 1;
      } else if exists i | 0 <= i < |l.calls| ::
                  l.calls[i].role == r.role && l.calls[i].cycle == r.cycle && (r.role == Coder || l.calls[i].attempt == r.attempt) {
        return None;
      }
      var c := Call(|l.calls| + 1, r.role, r.cycle, r.attempt, r.now, r.checkpoint, r.continuationOf, None, None);
      OpenedSound(r);
      AppendCall(l, policy, c);
      ledger := Some(l.(calls := l.calls + [c], continuations := continuations));
      id := Some(c.id);
    }

    method Complete(id: nat, result: Result, checkpoint: nat) returns (ok: bool)
      requires Valid()
      modifies `ledger
      ensures Valid() && Kept(old(ledger))
      ensures ok <==> old(Completable(id, result))
      ensures !ok ==> ledger == old(ledger)
      ensures ok ==>
                var calls := old(ledger.value.calls);
                ledger == Some(old(ledger).value.(calls :=
                  calls[|calls| - 1 := calls[|calls| - 1].(result := Some(result), stoppedCheckpoint := Some(checkpoint))]))
    {
      if ledger.None? || ledger.value.calls == [] {
        return false;
      }
      var calls := ledger.value.calls;
      var call := calls[|calls| - 1];
      if call.id != id || call.result.Some? {
        return false;
      }
      if !result.processesExited || result.startedAt < call.startedAt || result.endedAt < result.startedAt {
        return false;
      }
      call := call.(result := Some(result), stoppedCheckpoint := Some(checkpoint));
      FinishCall(ledger.value, policy, call);
      ledger := Some(ledger.value.(calls := calls[|calls| - 1 := call]));
      ok := true;
    }

    predicate Completable(id: nat, result: Result)
      reads this
    {
      && ledger.Some? && ledger.value.calls != []
      && var last := ledger.value.calls[|ledger.value.calls| - 1];
         last.id == id && last.result.None? && result.processesExited && result.startedAt >= last.startedAt && result.endedAt >= result.startedAt
    }

    /** Where an invocation starts: at the coder call that ran out of steps, if that is the last one. */
    function StartsAt(role: Role, cycle: nat): Option<nat>
      reads this
    {
      if ledger.None? || ledger.value.calls == [] then None
      else
        var last := ledger.value.calls[|ledger.value.calls| - 1];
        if role == Coder && SameCycle(last, Coder, cycle) && last.result.Some? && last.result.value.reason == StepBudget then Some(last.id) else None
    }

    method FindStart(role: Role, cycle: nat) returns (first: Option<nat>)
      ensures first == StartsAt(role, cycle)
    {
      first := None;
      if role == Coder && ledger.Some? && ledger.value.calls != [] {
        var previous := ledger.value.calls[|ledger.value.calls| - 1];
        if previous.role == role && previous.cycle == cycle && previous.result.Some? && previous.result.value.reason == StepBudget {
          first := Some(previous.id);
        }
      }
    }

    function Asked(role: Role, cycle: nat, attempt: nat, continuationOf: Option<nat>, t: Turn): Request {
      Request(t.binding, t.checkpoint, role, cycle, attempt, continuationOf, t.now, t.deadline)
    }

    function Calls(): seq<Call>
      reads this
    {
      if ledger.Some? then ledger.value.calls else []
    }

    function Size(): nat
      reads this
    {
      if ledger.Some? then |ledger.value.calls| else 0
    }

    /** All calls from this position on belong to one invocation. */
    ghost predicate Since(start: nat, role: Role, cycle: nat, attempt: nat)
      reads this
    {
      start <= Size() && forall i | start <= i < Size() :: SameCycle(ledger.value.calls[i], role, cycle) && ledger.value.calls[i].attempt == attempt
    }

    /** The process of the turn lives to be recorded, with evidence that it exited. */
    predicate Returns(t: Turn) {
      !t.dies && t.result.processesExited && t.now <= t.result.startedAt <= t.result.endedAt
    }

    /** The loop goes round again after this turn. */
    predicate GoesOn(role: Role, t: Turn) {
      role == Coder && Returns(t) && t.result.reason == StepBudget && t.stateContinues
    }

    /** What the turn leaves in the ledger. */
    function Recorded(r: Request, t: Turn, id: nat): Call {
      var c := NewCall(r, id);
      if Returns(t) then c.(result := Some(t.result), stoppedCheckpoint := Some(t.stoppedCheckpoint)) else c
    }

    /** One turn: reserve, run, complete. The worker may die between reservation and completion. */
    method TakeTurn(role: Role, cycle: nat, attempt: nat, continuationOf: Option<nat>, t: Turn,
                    ghost start: nat) returns (next: Option<nat>)
      requires Valid() && Since(start, role, cycle, attempt)
      modifies `ledger
      ensures Valid() && Kept(old(ledger)) && Since(start, role, cycle, attempt)
      ensures Size() == old(Size()) + if old(Reservable(Asked(role, cycle, attempt, continuationOf, t))) then 1 else 0
      ensures Size() <= policy.maxCalls || Size() == 0
      ensures next.Some? <==> old(Reservable(Asked(role, cycle, attempt, continuationOf, t))) && GoesOn(role, t)
      ensures next.Some? ==> next == Some(Size())
      ensures Size() == old(Size()) ==> ledger == old(ledger)
      ensures old(ledger).Some? ==> ledger.Some? && Grows(old(ledger).value, ledger.value)
      ensures Size() > old(Size()) ==>
                ledger.value.calls == old(Calls()) + [Recorded(Asked(role, cycle, attempt, continuationOf, t), t, Size())]
    {
      hide Sound, Grows, Fresh, Continues;
      next := None;
      var id := Reserve(Asked(role, cycle, attempt, continuationOf, t));
      if id.Some? && !t.dies {
        ghost var before := ledger;
        var ok := Complete(id.value, t.result, t.stoppedCheckpoint);
        KeptTwice(old(ledger), before);
        if ok && role == Coder && t.result.reason == StepBudget && t.stateContinues {
          next := id;
        }
      }
      WithinBudget();
    }

    lemma WithinBudget()
      requires Valid()
      ensures Size() <= policy.maxCalls
    {
    }

    /** The request of the given turn: each one after the first continues the call before it. */
    function AskedAt(role: Role, cycle: nat, attempt: nat, first: Option<nat>, start: nat, turns: nat -> Turn, n: nat): Request {
      Asked(role, cycle, attempt, if n == 0 then first else Some(start + n), turns(n))
    }

    /** One call for each turn, with the outcome of that turn. */
    predicate Made(calls: seq<Call>, before: seq<Call>, role: Role, cycle: nat, attempt: nat, first: Option<nat>, turns: nat -> Turn) {
      && before <= calls
      && forall k | |before| <= k < |calls| ::
           calls[k] == Recorded(AskedAt(role, cycle, attempt, first, |before|, turns, k - |before|), turns(k - |before|), k + 1)
    }

    lemma MadeOneMore(calls: seq<Call>, before: seq<Call>, role: Role, cycle: nat, attempt: nat, first: Option<nat>, turns: nat -> Turn,
                      more: seq<Call>)
      requires Made(calls, before, role, cycle, attempt, first, turns)
      requires var n := |calls| - |before|;
               more == calls + [Recorded(AskedAt(role, cycle, attempt, first, |before|, turns, n), turns(n), |calls| + 1)]
      ensures Made(more, before, role, cycle, attempt, first, turns)
    {
    }

    /** One invocation: a call, and continuations for as long as the step budget is what stopped it. It ends
        after a turn that does not go on, or before one that is not allowed or not within the budgets. */
    method Run(role: Role, cycle: nat, attempt: nat, turns: nat -> Turn)
      requires Valid()
      modifies `ledger
      ensures Valid() && Kept(old(ledger)) && Since(old(Size()), role, cycle, attempt)
      ensures Size() > old(Size()) <==>
                var t, first := turns(0), old(StartsAt(role, cycle));
                t.allowed && (first.Some? ==> t.sealed) && old(Reservable(Asked(role, cycle, attempt, StartsAt(role, cycle), turns(0))))
      ensures Size() >= old(Size()) && Made(Calls(), old(Calls()), role, cycle, attempt, old(StartsAt(role, cycle)), turns)
      ensures forall i | 0 <= i < Size() - old(Size()) - 1 :: GoesOn(role, turns(i))
      ensures var n := Size() - old(Size());
              || (n > 0 && !GoesOn(role, turns(n - 1)))
              || !turns(n).allowed || ((n > 0 || old(StartsAt(role, cycle)).Some?) && !turns(n).sealed)
              || !Reservable(AskedAt(role, cycle, attempt, old(StartsAt(role, cycle)), old(Size()), turns, n))
    {
      hide Sound, Grows, Continues, Fresh, Returns, Since, Reservable, Recorded, Valid, GoesOn, Made, StartsAt, Asked;
      var continuationOf := FindStart(role, cycle);
      var n := 0;
      ghost var start, before := Size(), Calls();
      ghost var first := continuationOf;
      KeptAtFirst(ledger);
      NothingSince(role, cycle, attempt);
      NothingMade(before, role, cycle, attempt, first, turns);
      while true
        invariant Valid() && Kept(old(ledger)) && Since(start, role, cycle, attempt)
        invariant Size() == start + n && Made(Calls(), before, role, cycle, attempt, first, turns)
        invariant forall i | 0 <= i < n :: GoesOn(role, turns(i))
        invariant continuationOf == if n == 0 then first else Some(start + n)
        invariant if n == 0 then ledger == old(ledger)
                  else turns(0).allowed && (first.Some? ==> turns(0).sealed) &&
                       old(Reservable(Asked(role, cycle, attempt, StartsAt(role, cycle), turns(0))))
        decreases policy.maxCalls - Size()
      {
        var t := turns(n);
        if !t.allowed || (continuationOf.Some? && !t.sealed) {
          return;
        }
        ghost var earlier, made := ledger, Calls();
        continuationOf := TakeTurn(role, cycle, attempt, continuationOf, t, start);
        KeptTwice(old(ledger), earlier);
        if Size() > start + n {
          MadeOneMore(made, before, role, cycle, attempt, first, turns, Calls());
        }
        if continuationOf.None? {
          return;
        }
        n := n + 1;
      }
    }

    lemma NothingMade(before: seq<Call>, role: Role, cycle: nat, attempt: nat, first: Option<nat>, turns: nat -> Turn)
      ensures Made(before, before, role, cycle, attempt, first, turns)
    {
    }

    lemma NothingSince(role: Role, cycle: nat, attempt: nat)
      ensures Since(Size(), role, cycle, attempt)
    {
    }

    lemma KeptAtFirst(first: Option<Ledger>)
      requires first == ledger
      ensures Kept(first)
    {
    }

    lemma KeptTwice(first: Option<Ledger>, second: Option<Ledger>)
      requires Kept(second) && (first.Some? ==> second.Some? && Grows(first.value, second.value))
      ensures Kept(first)
    {
    }
  }
}

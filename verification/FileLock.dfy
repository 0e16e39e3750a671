/** Lock files that are published by an atomic link, removed by their holder, and recovered only
    from a dead owner. Any number of processes interleave one file-system step at a time, and any
    of them may die between two steps. Recovery of a lock is guarded by a second lock file of the
    same kind, which may itself be recovered, and so on. */
module FileLock {
  import opened Options

  /** A process identity is its pid with its start time: it is never reused. */
  type Identity = nat
  type Token = nat
  type ClientId = nat

  datatype Path = File(name: nat) | RecoveryOf(target: Path)
  datatype Record = Record(owner: Identity, token: Token)

  datatype Purpose = Critical | Recover(expected: Option<Record>)
  datatype Stage =
    | Exists | ReadBefore | ReadOwner(before: Record) | CheckAlive(before: Record, owner: Record)
    | Recheck(before: Record, owner: Record) | Rename(before: Record)
  datatype Phase =
    | Linking(path: Path, token: Token, purpose: Purpose)
    | Holding(path: Path, token: Token)
    | Removing(path: Path, token: Token)
    | Recovering(path: Path, token: Token, expected: Option<Record>, at: Stage)
    | Done
  datatype Client = Client(process: Identity, phase: Phase)

  /** The lock directory, the process table and the calls in progress. Issued and removed keep
      the tokens that were ever generated and those whose file is gone. */
  datatype State = State(
    locks: map<Path, Record>, alive: set<Identity>, born: set<Identity>, clients: map<ClientId, Client>,
    issued: set<Token>, removed: set<Token>)

  datatype Op =
    | Start(process: Identity)
    | Die(process: Identity)
    | Lock(process: Identity, c: ClientId, path: Path, token: Token)
    | RecoverLock(process: Identity, c: ClientId, path: Path, expected: Option<Record>, token: Token)
    | Advance(c: ClientId)
    | Throw(c: ClientId)

  const INITIAL := State(map[], {}, {}, map[], {}, {})

  predicate Enabled(s: State, op: Op) {
    match op
    case Start(p) => p !in s.born
    case Die(p) => p in s.alive
    case Lock(p, c, path, token) => p in s.alive && c !in s.clients && token !in s.issued
    case RecoverLock(p, c, path, expected, token) => p in s.alive && c !in s.clients && token !in s.issued
    case Advance(c) => c in s.clients && s.clients[c].process in s.alive
    case Throw(c) => c in s.clients && s.clients[c].process in s.alive
  }

  function Step(s: State, op: Op): State
    requires Enabled(s, op)
  {
    match op
    case Start(p) => s.(alive := s.alive + {p}, born := s.born + {p})
    case Die(p) => s.(alive := s.alive - {p})
    case Lock(p, c, path, token) =>
      s.(clients := s.clients[c := Client(p, Linking(path, token, Critical))], issued := s.issued + {token})
    case RecoverLock(p, c, path, expected, token) =>
      if path !in s.locks then s
      else s.(clients := s.clients[c := Client(p, Linking(RecoveryOf(path), token, Recover(expected)))], issued := s.issued + {token})
    case Advance(c) => AdvanceClient(s, c, s.clients[c])
    case Throw(c) => Continue(s, c, Abandon(s.clients[c].phase))
  }

  function Continue(s: State, c: ClientId, phase: Phase): State
    requires c in s.clients
  {
    s.(clients := s.clients[c := s.clients[c].(phase := phase)])
  }

  function Remove(s: State, path: Path): State {
    if path in s.locks then s.(locks := s.locks - {path}, removed := s.removed + {s.locks[path].token}) else s
  }

  /** An exception: linking is given up, and a recovery goes on to release its own lock. A holder
      reaches its release either way. */
  function Abandon(phase: Phase): Phase {
    match phase
    case Linking(_, _, _) => Done
    case Recovering(path, token, _, _) => Holding(RecoveryOf(path), token)
    case Holding(_, _) => phase
    case Removing(_, _) => phase
    case Done => Done
  }

  function AdvanceClient(s: State, c: ClientId, client: Client): State
    requires c in s.clients
  {
    match client.phase
    case Linking(path, token, purpose) =>
      if path in s.locks then s
      else
        var next := if purpose.Recover? && path.RecoveryOf? then Recovering(path.target, token, purpose.expected, Exists) else Holding(path, token);
        Continue(s.(locks := s.locks[path := Record(client.process, token)]), c, next)
    case Holding(path, token) =>
      Continue(s, c, if path in s.locks && s.locks[path].token == token then Removing(path, token) else Done)
    case Removing(path, token) => Continue(Remove(s, path), c, Done)
    case Recovering(path, token, expected, at) => AdvanceRecovery(s, c, path, token, expected, at)
    case Done => s
  }

  function AdvanceRecovery(s: State, c: ClientId, path: Path, token: Token, expected: Option<Record>, at: Stage): State
    requires c in s.clients
  {
    var release := Holding(RecoveryOf(path), token);
    if path !in s.locks then Continue(s, c, release)
    else if at.Rename? then Continue(Remove(s, path), c, release)
    else
      var now := s.locks[path];
      var next := match at
        case Exists => Some(ReadBefore)
        case ReadBefore => Some(ReadOwner(now))
        case ReadOwner(before) => if expected.Some? && expected.value != now then None else Some(CheckAlive(before, now))
        case CheckAlive(before, owner) => if owner.owner in s.alive then None else Some(Recheck(before, owner))
        case Recheck(before, owner) => if now == before then Some(Rename(before)) else None
        case Rename(before) => None;
      Continue(s, c, if next.Some? then Recovering(path, token, expected, next.value) else release)
  }

  // ---------------------------------------------------------------- runs

  /** Behind a predicate of its own, so that a run is not unfolded unless one of its steps is named. */
  predicate StepAt(states: seq<State>, ops: seq<Op>, i: nat)
    requires i < |ops| && |states| == |ops| + 1
  {
    Enabled(states[i], ops[i]) && states[i + 1] == Step(states[i], ops[i])
  }

  ghost predicate IsRun(states: seq<State>, ops: seq<Op>) {
    |states| == |ops| + 1 && states[0] == INITIAL && forall i: nat | i < |ops| :: StepAt(states, ops, i)
  }

  // ---------------------------------------------------------------- the invariant

  /** The lock file a phase believes it holds. */
  function Held(phase: Phase): Option<(Path, Token)> {
    match phase
    case Holding(path, token) => Some((path, token))
    case Removing(path, token) => Some((path, token))
    case Recovering(path, token, _, _) => Some((RecoveryOf(path), token))
    case Linking(_, _, _) => None
    case Done => None
  }

  function TokenOf(phase: Phase): Option<Token> {
    match phase
    case Linking(_, token, _) => Some(token)
    case Holding(_, token) => Some(token)
    case Removing(_, token) => Some(token)
    case Recovering(_, token, _, _) => Some(token)
    case Done => None
  }

  /** What a recovery has learnt stays true: a record it read is still there or gone for good, and
      once it has rechecked, the file it will rename is that of a dead owner. */
  predicate StageInv(s: State, path: Path, at: Stage) {
    match at
    case Exists => true
    case ReadBefore => true
    case ReadOwner(before) => before.token in s.removed || (path in s.locks && s.locks[path] == before)
    case CheckAlive(before, owner) => (before == owner || before.token in s.removed) && owner.owner in s.born
    case Recheck(before, owner) => (before == owner || before.token in s.removed) && owner.owner in s.born - s.alive
    case Rename(before) => path in s.locks && s.locks[path] == before && before.owner in s.born - s.alive
  }

  /** A live client that believes to hold a lock file does hold it. */
  predicate ClientInv(s: State, client: Client) {
    && client.process in s.born
    && (TokenOf(client.phase).Some? ==> TokenOf(client.phase).value in s.issued)
    && (client.phase.Linking? ==>
          client.phase.token !in s.removed && forall path | path in s.locks :: s.locks[path].token != client.phase.token)
    && (client.process in s.alive && Held(client.phase).Some? ==>
          var (path, token) := Held(client.phase).value;
          path in s.locks && s.locks[path] == Record(client.process, token))
    && (client.process in s.alive && client.phase.Recovering? ==> StageInv(s, client.phase.path, client.phase.at))
  }

  ghost predicate Inv(s: State) {
    && s.alive <= s.born && s.removed <= s.issued
    && (forall path | path in s.locks ::
          s.locks[path].token in s.issued - s.removed && s.locks[path].owner in s.born)
    && (forall x, y | x in s.locks && y in s.locks && x != y :: s.locks[x].token != s.locks[y].token)
    && (forall c | c in s.clients :: ClientInv(s, s.clients[c]))
    && (forall c, d | c in s.clients && d in s.clients && c != d && TokenOf(s.clients[c].phase).Some? ::
          TokenOf(s.clients[c].phase) != TokenOf(s.clients[d].phase))
  }

  lemma ContinueKeeps(s: State, c: ClientId, phase: Phase)
    requires Inv(s) && c in s.clients && ClientInv(s, s.clients[c].(phase := phase))
    requires TokenOf(phase).None? || TokenOf(phase) == TokenOf(s.clients[c].phase)
    ensures Inv(Continue(s, c, phase))
  {
    hide ClientInv, TokenOf;
    var s' := Continue(s, c, phase);
    forall d | d in s'.clients
      ensures ClientInv(s', s'.clients[d])
    {
      assert ClientInv(s, s.clients[d]);
      SameFiles(s, s', s'.clients[d]);
    }
    SameTokens(s, c, phase);
  }

  /** What a client relies on does not depend on the other clients. */
  lemma SameFiles(s: State, s': State, client: Client)
    requires ClientInv(s, client) && s' == s.(clients := s'.clients)
    ensures ClientInv(s', client)
  {
  }

  lemma SameTokens(s: State, c: ClientId, phase: Phase)
    requires Inv(s) && c in s.clients
    requires TokenOf(phase).None? || TokenOf(phase) == TokenOf(s.clients[c].phase)
    ensures var s' := Continue(s, c, phase);
            forall x, y | x in s'.clients && y in s'.clients && x != y && TokenOf(s'.clients[x].phase).Some? ::
              TokenOf(s'.clients[x].phase) != TokenOf(s'.clients[y].phase)
  {
    hide ClientInv, TokenOf;
  }

  /** Nothing else relies on the file that goes away. */
  lemma RemoveKeeps(s: State, c: ClientId, path: Path, phase: Phase)
    requires Inv(s) && c in s.clients && path in s.locks
    requires forall d | d in s.clients && d != c && s.clients[d].process in s.alive :: !Relies(s.clients[d].phase, path)
    requires TokenOf(phase).None? || TokenOf(phase) == TokenOf(s.clients[c].phase)
    requires ClientInv(Remove(s, path), s.clients[c].(phase := phase))
    ensures Inv(Continue(Remove(s, path), c, phase))
  {
    var s' := Continue(Remove(s, path), c, phase);
    forall d | d in s'.clients
      ensures ClientInv(s', s'.clients[d])
    {
      if d != c {
        assert ClientInv(s, s.clients[d]);
      }
    }
  }

  predicate Relies(phase: Phase, path: Path) {
    (Held(phase).Some? && Held(phase).value.0 == path) || (phase.Recovering? && phase.path == path && phase.at.Rename?)
  }

  lemma LinkKeeps(s: State, c: ClientId, phase: Phase)
    requires Inv(s) && c in s.clients && s.clients[c].process in s.alive && s.clients[c].phase.Linking?
    requires var l := s.clients[c].phase; l.path !in s.locks && Held(phase) == Some((l.path, l.token))
    requires phase.Holding? || (phase.Recovering? && phase.at.Exists?)
    ensures var l := s.clients[c].phase;
            Inv(Continue(s.(locks := s.locks[l.path := Record(s.clients[c].process, l.token)]), c, phase))
  {
    var l := s.clients[c].phase;
    var s' := Continue(s.(locks := s.locks[l.path := Record(s.clients[c].process, l.token)]), c, phase);
    assert ClientInv(s, s.clients[c]);
    forall d | d in s'.clients
      ensures ClientInv(s', s'.clients[d])
    {
      if d != c {
        assert ClientInv(s, s.clients[d]);
        assert TokenOf(s.clients[c].phase) != TokenOf(s.clients[d].phase);
      }
    }
  }

  /** The holder unlinks its own file: nobody else holds it, and nobody is about to rename it. */
  lemma UnlinkKeeps(s: State, c: ClientId)
    requires Inv(s) && c in s.clients && s.clients[c].process in s.alive && s.clients[c].phase.Removing?
    ensures Inv(Step(s, Advance(c)))
  {
    var path := s.clients[c].phase.path;
    assert ClientInv(s, s.clients[c]);
    forall d | d in s.clients && d != c && s.clients[d].process in s.alive
      ensures !Relies(s.clients[d].phase, path)
    {
      assert ClientInv(s, s.clients[d]);
    }
    RemoveKeeps(s, c, path, Done);
  }

  /** The renaming recovery holds the recovery lock, so it is the only one, and the owner is dead. */
  lemma RenameKeeps(s: State, c: ClientId)
    requires Inv(s) && c in s.clients && s.clients[c].process in s.alive
    requires s.clients[c].phase.Recovering? && s.clients[c].phase.at.Rename?
    ensures Inv(Step(s, Advance(c)))
  {
    var r := s.clients[c].phase;
    assert ClientInv(s, s.clients[c]);
    forall d | d in s.clients && d != c && s.clients[d].process in s.alive
      ensures !Relies(s.clients[d].phase, r.path)
    {
      assert ClientInv(s, s.clients[d]);
    }
    assert RecoveryOf(r.path) != r.path;
    RemoveKeeps(s, c, r.path, Holding(RecoveryOf(r.path), r.token));
  }

  lemma AdvanceKeeps(s: State, c: ClientId)
    requires Inv(s) && Enabled(s, Advance(c))
    ensures Inv(Step(s, Advance(c)))
  {
    var client := s.clients[c];
    assert ClientInv(s, client);
    match client.phase
    case Linking(path, token, purpose) =>
      if path !in s.locks {
        LinkKeeps(s, c, if purpose.Recover? && path.RecoveryOf? then Recovering(path.target, token, purpose.expected, Exists) else Holding(path, token));
      }
    case Holding(path, token) => ContinueKeeps(s, c, Removing(path, token));
    case Removing(path, token) => UnlinkKeeps(s, c);
    case Recovering(path, token, expected, at) =>
      if at.Rename? {
        RenameKeeps(s, c);
      } else {
        ContinueKeeps(s, c, AdvanceRecovery(s, c, path, token, expected, at).clients[c].phase);
      }
    case Done =>
  }

  lemma OthersKeep(s: State, op: Op)
    requires Inv(s) && Enabled(s, op) && !op.Advance?
    ensures Inv(Step(s, op))
  {
    match op
    case Start(_) => ProcessKeeps(s, op);
    case Die(_) => ProcessKeeps(s, op);
    case Lock(_, _, _, _) => CallKeeps(s, op);
    case RecoverLock(_, _, _, _, _) => CallKeeps(s, op);
    case Advance(_) => assert false;
    case Throw(c) =>
      assert ClientInv(s, s.clients[c]);
      ContinueKeeps(s, c, Abandon(s.clients[c].phase));
  }

  lemma ProcessKeeps(s: State, op: Op)
    requires Inv(s) && Enabled(s, op) && (op.Start? || op.Die?)
    ensures Inv(Step(s, op))
  {
    forall d | d in s.clients
      ensures ClientInv(Step(s, op), s.clients[d])
    {
      assert ClientInv(s, s.clients[d]);
    }
  }

  lemma CallKeeps(s: State, op: Op)
    requires Inv(s) && Enabled(s, op) && (op.Lock? || op.RecoverLock?)
    ensures Inv(Step(s, op))
  {
    var s' := Step(s, op);
    forall d | d in s'.clients
      ensures ClientInv(s', s'.clients[d])
    {
      if d in s.clients {
        assert ClientInv(s, s.clients[d]);
      }
    }
  }

  lemma {:induction false} RunInv(states: seq<State>, ops: seq<Op>, n: nat)
    requires IsRun(states, ops) && n <= |ops|
    ensures Inv(states[n])
  {
    if n > 0 {
      RunInv(states, ops, n - 1);
      assert StepAt(states, ops, n - 1);
      if ops[n - 1].Advance? {
        AdvanceKeeps(states[n - 1], ops[n - 1].c);
      } else {
        OthersKeep(states[n - 1], ops[n - 1]);
      }
    }
  }

  // ---------------------------------------------------------------- what every run keeps

  /** No two live processes hold one lock, recovery locks included. */
  lemma MutualExclusion(states: seq<State>, ops: seq<Op>, n: nat, c: ClientId, d: ClientId)
    requires IsRun(states, ops) && n <= |ops| && c in states[n].clients && d in states[n].clients && c != d
    requires states[n].clients[c].process in states[n].alive && states[n].clients[d].process in states[n].alive
    requires Held(states[n].clients[c].phase).Some? && Held(states[n].clients[d].phase).Some?
    ensures Held(states[n].clients[c].phase).value.0 != Held(states[n].clients[d].phase).value.0
  {
    RunInv(states, ops, n);
    var s := states[n];
    assert ClientInv(s, s.clients[c]) && ClientInv(s, s.clients[d]);
    assert TokenOf(s.clients[c].phase) != TokenOf(s.clients[d].phase);
  }

  /** The lock file of a live process is removed only by the call that holds it, in that process. */
  lemma LiveLockRemovedByHolder(states: seq<State>, ops: seq<Op>, n: nat, path: Path)
    requires IsRun(states, ops) && n < |ops|
    requires path in states[n].locks && states[n].locks[path].owner in states[n].alive
    requires path !in states[n + 1].locks || states[n + 1].locks[path] != states[n].locks[path]
    ensures ops[n].Advance? && ops[n].c in states[n].clients
    ensures states[n].clients[ops[n].c] == Client(states[n].locks[path].owner, Removing(path, states[n].locks[path].token))
  {
    RunInv(states, ops, n);
    assert StepAt(states, ops, n);
    var s, op := states[n], ops[n];
    if op.Advance? {
      assert ClientInv(s, s.clients[op.c]);
    }
  }

  /** A holder that is alive never finds its lock changed: its release removes the file in two steps. */
  lemma ReleaseSucceeds(states: seq<State>, ops: seq<Op>, n: nat, c: ClientId)
    requires IsRun(states, ops) && n <= |ops| && Enabled(states[n], Advance(c)) && states[n].clients[c].phase.Holding?
    ensures var s := states[n];
            var held := s.clients[c].phase;
            var s1 := Step(s, Advance(c));
            var s2 := Step(s1, Advance(c));
            && held.path in s.locks && s.locks[held.path] == Record(s.clients[c].process, held.token)
            && s1.clients[c].phase == Removing(held.path, held.token)
            && s2.clients[c].phase == Done && s2.locks == s.locks - {held.path}
  {
    RunInv(states, ops, n);
    assert ClientInv(states[n], states[n].clients[c]);
  }

  function Solo(s: State, c: ClientId, n: nat): State
    requires Enabled(s, Advance(c))
    ensures Enabled(Solo(s, c, n), Advance(c)) && Solo(s, c, n).alive == s.alive
    decreases n
  {
    if n == 0 then s else Solo(Step(s, Advance(c)), c, n - 1)
  }

  /** The lock is there, and is read. */
  lemma RecoveryReads(s: State, c: ClientId)
    requires Enabled(s, Advance(c))
    requires var r := s.clients[c].phase; r.Recovering? && r.at.Exists? && r.path in s.locks
    ensures var r := s.clients[c].phase;
            Solo(s, c, 2) == Continue(s, c, Recovering(r.path, r.token, r.expected, ReadOwner(s.locks[r.path])))
  {
  }

  /** Its owner is the one expected, is dead, and has not changed. */
  lemma RecoveryRechecks(s: State, c: ClientId)
    requires Enabled(s, Advance(c))
    requires var r := s.clients[c].phase;
             && r.Recovering? && r.path in s.locks && r.at == ReadOwner(s.locks[r.path]) && s.locks[r.path].owner !in s.alive
             && (r.expected.Some? ==> r.expected.value == s.locks[r.path])
    ensures var r := s.clients[c].phase;
            Solo(s, c, 3) == Continue(s, c, Recovering(r.path, r.token, r.expected, Rename(s.locks[r.path])))
  {
  }

  /** The checks of a recovery, when nobody interferes. */
  lemma RecoveryChecks(s: State, c: ClientId)
    requires Enabled(s, Advance(c))
    requires var r := s.clients[c].phase;
             && r.Recovering? && r.at.Exists? && r.path in s.locks && s.locks[r.path].owner !in s.alive
             && (r.expected.Some? ==> r.expected.value == s.locks[r.path])
    ensures var r := s.clients[c].phase;
            Solo(s, c, 5) == Continue(s, c, Recovering(r.path, r.token, r.expected, Rename(s.locks[r.path])))
  {
    hide Solo, Step;
    RecoveryReads(s, c);
    SoloAdds(s, c, 2, 3);
    RecoveryRechecks(Solo(s, c, 2), c);
  }

  lemma SoloAdds(s: State, c: ClientId, m: nat, n: nat)
    requires Enabled(s, Advance(c))
    ensures Solo(s, c, m + n) == Solo(Solo(s, c, m), c, n)
    decreases m
  {
    hide Step;
    if m > 0 {
      SoloOnce(s, c);
      SoloAdds(Step(s, Advance(c)), c, m - 1, n);
    }
  }

  /** Left alone, a recovery of a dead owner's lock removes exactly that lock, and its own. */
  lemma RecoveryCompletes(states: seq<State>, ops: seq<Op>, n: nat, c: ClientId)
    requires IsRun(states, ops) && n <= |ops| && Enabled(states[n], Advance(c))
    requires var s, r := states[n], states[n].clients[c].phase;
             && r.Recovering? && r.at.Exists? && r.path in s.locks && s.locks[r.path].owner !in s.alive
             && (r.expected.Some? ==> r.expected.value == s.locks[r.path])
    ensures var s, path := states[n], states[n].clients[c].phase.path;
            Solo(s, c, 8).locks == s.locks - {path, RecoveryOf(path)} && Solo(s, c, 8).clients[c].phase == Done
  {
    RunInv(states, ops, n);
    var s, r := states[n], states[n].clients[c].phase;
    RecoveryChecks(s, c);
    SoloAdds(s, c, 5, 3);
    assert ClientInv(s, s.clients[c]);
    ReleaseLast(Solo(s, c, 5), c, r.path, r.token, r.expected, s.locks[r.path]);
  }

  lemma ReleaseLast(s: State, c: ClientId, path: Path, token: Token, expected: Option<Record>, owner: Record)
    requires Enabled(s, Advance(c)) && s.clients[c].phase == Recovering(path, token, expected, Rename(owner))
    requires path in s.locks && RecoveryOf(path) in s.locks && s.locks[RecoveryOf(path)].token == token
    ensures Solo(s, c, 3).locks == s.locks - {path, RecoveryOf(path)} && Solo(s, c, 3).clients[c].phase == Done
  {
  }

  // ---------------------------------------------------------------- whole calls, left alone

  lemma DoneStays(s: State, c: ClientId, n: nat)
    requires Enabled(s, Advance(c)) && s.clients[c].phase == Done
    ensures Solo(s, c, n) == s
  {
    if n > 0 {
      assert Continue(s, c, Done) == s;
      DoneStays(s, c, n - 1);
    }
  }

  /** Whoever finds its own token in a lock file removes the file, and is done. */
  lemma ReleasesOwn(s: State, c: ClientId, path: Path, token: Token)
    requires Enabled(s, Advance(c)) && s.clients[c].phase == Holding(path, token)
    requires path in s.locks && s.locks[path].token == token
    ensures Solo(s, c, 2).locks == s.locks - {path} && Solo(s, c, 2).clients[c].phase == Done
  {
  }

  /** A call for a free lock holds it after one step, under its own record, and one for an occupied lock
      waits; the release leaves the locks as they were. */
  lemma LockTakes(s: State, p: Identity, c: ClientId, path: Path, token: Token)
    requires Enabled(s, Lock(p, c, path, token))
    ensures var called := Step(s, Lock(p, c, path, token));
            && called.locks == s.locks && Enabled(called, Advance(c))
            && (path in s.locks ==> Step(called, Advance(c)) == called)
            && (path !in s.locks ==>
                  var holds := Step(called, Advance(c));
                  && holds.locks == s.locks[path := Record(p, token)] && holds.clients[c] == Client(p, Holding(path, token))
                  && Solo(holds, c, 2).locks == s.locks && Solo(holds, c, 2).clients[c].phase == Done)
  {
    var called := Step(s, Lock(p, c, path, token));
    if path !in s.locks {
      var holds := Step(called, Advance(c));
      ReleasesOwn(holds, c, path, token);
      assert s.locks[path := Record(p, token)] - {path} == s.locks;
    }
  }

  /** A call to recover a lock that is gone is over at once; otherwise it waits for the recovery lock, and
      takes it before it looks at the lock again. */
  lemma RecoveryStarts(s: State, p: Identity, c: ClientId, path: Path, expected: Option<Record>, token: Token)
    requires Enabled(s, RecoverLock(p, c, path, expected, token))
    ensures var called := Step(s, RecoverLock(p, c, path, expected, token));
            && (path !in s.locks ==> called == s)
            && (path in s.locks ==>
                  && called.locks == s.locks && Enabled(called, Advance(c))
                  && (RecoveryOf(path) in s.locks ==> Step(called, Advance(c)) == called)
                  && (RecoveryOf(path) !in s.locks ==>
                        var starts := Step(called, Advance(c));
                        && starts.locks == s.locks[RecoveryOf(path) := Record(p, token)] && starts.alive == s.alive
                        && starts.clients[c] == Client(p, Recovering(path, token, expected, Exists))))
  {
  }

  /** The lock may be recovered: its owner is dead, and is the one the caller expects if it expects one. */
  predicate Recoverable(s: State, path: Path, expected: Option<Record>) {
    path in s.locks && s.locks[path].owner !in s.alive && (expected.Some? ==> expected.value == s.locks[path])
  }

  /** A whole recovery, left alone, removes the lock if and only if it may be recovered; either way it
      removes its own recovery lock, touches no other, and is done. */
  lemma RecoveryDecides(s: State, p: Identity, c: ClientId, path: Path, expected: Option<Record>, token: Token)
    requires Enabled(s, RecoverLock(p, c, path, expected, token)) && path in s.locks && RecoveryOf(path) !in s.locks
    ensures var called := Step(s, RecoverLock(p, c, path, expected, token));
            && Enabled(called, Advance(c)) && Solo(called, c, 9).clients[c].phase == Done
            && Solo(called, c, 9).locks == if Recoverable(s, path, expected) then s.locks - {path} else s.locks
  {
    hide Solo, Step, Abandon;
    RecoveryStarts(s, p, c, path, expected, token);
    var called := Step(s, RecoverLock(p, c, path, expected, token));
    SoloOnce(called, c);
    var starts := Step(called, Advance(c));
    SoloAdds(called, c, 1, 8);
    DistinctPaths(path);
    if Recoverable(s, path, expected) {
      RecoveryChecks(starts, c);
      SoloAdds(starts, c, 5, 3);
      ReleaseLast(Solo(starts, c, 5), c, path, token, expected, s.locks[path]);
    } else {
      RecoveryReads(starts, c);
      SoloAdds(starts, c, 2, 6);
      RecoveryRefuses(Solo(starts, c, 2), c);
      assert s.locks[RecoveryOf(path) := Record(p, token)] - {RecoveryOf(path)} == s.locks;
    }
  }

  lemma SoloOnce(s: State, c: ClientId)
    requires Enabled(s, Advance(c))
    ensures Enabled(Step(s, Advance(c)), Advance(c)) && Solo(s, c, 1) == Step(s, Advance(c))
  {
    assert Solo(s, c, 1) == Solo(Step(s, Advance(c)), c, 0);
  }

  lemma {:induction false} DistinctPaths(path: Path)
    ensures path != RecoveryOf(path)
  {
    match path
    case File(_) =>
    case RecoveryOf(target) => DistinctPaths(target);
  }

  lemma ReleasedStays(s: State, c: ClientId, path: Path, token: Token, n: nat)
    requires Enabled(s, Advance(c)) && s.clients[c].phase == Holding(path, token)
    requires path in s.locks && s.locks[path].token == token
    ensures Solo(s, c, 2 + n).locks == s.locks - {path} && Solo(s, c, 2 + n).clients[c].phase == Done
  {
    hide Solo, Step;
    ReleasesOwn(s, c, path, token);
    SoloAdds(s, c, 2, n);
    DoneStays(Solo(s, c, 2), c, n);
  }

  /** An owner that is not the expected one ends the checks. */
  lemma Unexpected(s: State, c: ClientId)
    requires Enabled(s, Advance(c))
    requires var r := s.clients[c].phase;
             && r.Recovering? && r.path in s.locks && r.at == ReadOwner(s.locks[r.path])
             && r.expected.Some? && r.expected.value != s.locks[r.path]
    ensures var r := s.clients[c].phase; Step(s, Advance(c)) == Continue(s, c, Holding(RecoveryOf(r.path), r.token))
  {
  }

  /** So does one that is alive. */
  lemma StillAlive(s: State, c: ClientId)
    requires Enabled(s, Advance(c))
    requires var r := s.clients[c].phase;
             && r.Recovering? && r.path in s.locks && r.at == ReadOwner(s.locks[r.path]) && s.locks[r.path].owner in s.alive
             && (r.expected.Some? ==> r.expected.value == s.locks[r.path])
    ensures var r := s.clients[c].phase; Solo(s, c, 2) == Continue(s, c, Holding(RecoveryOf(r.path), r.token))
  {
  }

  /** A lock whose owner is alive, or not the expected one, stays; the recovery lock is released. */
  lemma RecoveryRefuses(s: State, c: ClientId)
    requires Enabled(s, Advance(c))
    requires var r := s.clients[c].phase;
             && r.Recovering? && r.path in s.locks && r.at == ReadOwner(s.locks[r.path]) && !Recoverable(s, r.path, r.expected)
             && RecoveryOf(r.path) in s.locks && s.locks[RecoveryOf(r.path)].token == r.token
    ensures var path := s.clients[c].phase.path;
            Solo(s, c, 6).locks == s.locks - {RecoveryOf(path)} && Solo(s, c, 6).clients[c].phase == Done
  {
    hide Solo, Step;
    var r := s.clients[c].phase;
    var released := Continue(s, c, Holding(RecoveryOf(r.path), r.token));
    if r.expected.Some? && r.expected.value != s.locks[r.path] {
      Unexpected(s, c);
      SoloOnce(s, c);
      SoloAdds(s, c, 1, 5);
      ReleasedStays(released, c, RecoveryOf(r.path), r.token, 3);
    } else {
      StillAlive(s, c);
      SoloAdds(s, c, 2, 4);
      ReleasedStays(released, c, RecoveryOf(r.path), r.token, 2);
    }
  }

  /** A new process can take a free lock. */
  lemma StartsAndLocks(s: State, p: Identity, c: ClientId, path: Path, token: Token)
    requires p !in s.born && c !in s.clients && token !in s.issued && path !in s.locks
    ensures Enabled(s, Start(p))
    ensures var started := Step(s, Start(p));
            && Enabled(started, Lock(p, c, path, token))
            && var called := Step(started, Lock(p, c, path, token));
               Enabled(called, Advance(c)) && Step(called, Advance(c)).locks == s.locks[path := Record(p, token)]
  {
    LockTakes(Step(s, Start(p)), p, c, path, token);
  }

  /** Any process may die, and the lock it held can then be recovered by another one. */
  lemma DeadOwnersLockIsRecovered(s: State, p: Identity, path: Path, q: Identity, c: ClientId, token: Token)
    requires p in s.alive && path in s.locks && s.locks[path].owner == p && RecoveryOf(path) !in s.locks
    requires q in s.alive && q != p && c !in s.clients && token !in s.issued
    ensures Enabled(s, Die(p))
    ensures var left := Step(s, Die(p));
            && Enabled(left, RecoverLock(q, c, path, Some(s.locks[path]), token))
            && var called := Step(left, RecoverLock(q, c, path, Some(s.locks[path]), token));
               Enabled(called, Advance(c)) && Solo(called, c, 9).locks == s.locks - {path}
  {
    RecoveryDecides(Step(s, Die(p)), q, c, path, Some(s.locks[path]), token);
  }

  /** An exception gives up a call that waits, and ends a recovery by the release of its own lock; no other
      lock is touched. */
  lemma ThrowReleases(s: State, c: ClientId)
    requires Enabled(s, Advance(c))
    ensures Enabled(s, Throw(c)) && Enabled(Step(s, Throw(c)), Advance(c))
    ensures var thrown := Step(s, Throw(c));
            match s.clients[c].phase
            case Linking(_, _, _) => thrown.locks == s.locks && thrown.clients[c].phase == Done
            case Recovering(path, token, _, _) =>
              RecoveryOf(path) in s.locks && s.locks[RecoveryOf(path)].token == token ==>
                Solo(thrown, c, 2).locks == s.locks - {RecoveryOf(path)} && Solo(thrown, c, 2).clients[c].phase == Done
            case Holding(_, _) => thrown == s
            case Removing(_, _) => thrown == s
            case Done => thrown == s
  {
    if s.clients[c].phase.Recovering? {
      var r := s.clients[c].phase;
      if RecoveryOf(r.path) in s.locks && s.locks[RecoveryOf(r.path)].token == r.token {
        ReleasesOwn(Step(s, Throw(c)), c, RecoveryOf(r.path), r.token);
      }
    }
  }
}

/** Which processes a supervisor owns: the rows of a process table that descend from a row whose
    ownership is proved, and nothing else. */
module Ownership {
  import opened Options

  type Pid = nat

  /** One row of a process snapshot. Owned: its environment carries the token of the run. */
  datatype Row = Row(pid: Pid, ppid: Pid, pgid: Pid, started: nat, owned: bool)
  datatype Identity = Identity(pid: Pid, started: nat)

  datatype Problem = IdentityChanged | GroupUnproved | TooMany
  datatype Inventory = Tree(rows: seq<Row>) | Refused(why: Problem)

  const INVENTORY_LIMIT := 256

  function IdentityOf(r: Row): Identity {
    Identity(r.pid, r.started)
  }

  /** The same process was seen before, in the same group: proof that survives a lost environment. */
  predicate Witnessed(known: seq<Row>, r: Row) {
    exists i | 0 <= i < |known| :: known[i].pid == r.pid && known[i].started == r.started && known[i].pgid == r.pgid
  }

  predicate Proved(known: seq<Row>, r: Row) {
    r.owned || Witnessed(known, r)
  }

  predicate HasPid(rows: seq<Row>, pid: Pid) {
    exists i | 0 <= i < |rows| :: rows[i].pid == pid
  }

  function FindPid(rows: seq<Row>, pid: Pid): (r: Option<Row>)
    ensures r.Some? ==> r.value in rows && r.value.pid == pid
    ensures r.None? <==> !HasPid(rows, pid)
  {
    if rows == [] then None
    else if rows[0].pid == pid then Some(rows[0])
    else
      assert forall i | 0 <= i < |rows| - 1 :: rows[1..][i] == rows[i + 1];
      FindPid(rows[1..], pid)
  }

  /** The rows the closure starts from: every row with a proof, and the worker itself. */
  predicate Seed(rows: seq<Row>, worker: Identity, known: seq<Row>, pid: Pid) {
    exists i | 0 <= i < |rows| :: rows[i].pid == pid && (Proved(known, rows[i]) || pid == worker.pid)
  }

  // ---------------------------------------------------------------- descent

  /** A chain of parent links from a seed down to a process, through rows of the snapshot. */
  predicate Chain(rows: seq<Row>, worker: Identity, known: seq<Row>, chain: seq<nat>) {
    && chain != [] && (forall a | 0 <= a < |chain| :: chain[a] < |rows|)
    && Seed(rows, worker, known, rows[chain[0]].pid)
    && forall a | 0 < a < |chain| :: rows[chain[a]].ppid == rows[chain[a - 1]].pid
  }

  ghost predicate Descends(rows: seq<Row>, worker: Identity, known: seq<Row>, pid: Pid) {
    exists chain :: Chain(rows, worker, known, chain) && rows[chain[|chain| - 1]].pid == pid
  }

  predicate Closed(rows: seq<Row>, selected: set<Pid>) {
    forall i | 0 <= i < |rows| && rows[i].ppid in selected :: rows[i].pid in selected
  }

  lemma SeedDescends(rows: seq<Row>, worker: Identity, known: seq<Row>, pid: Pid)
    requires Seed(rows, worker, known, pid)
    ensures Descends(rows, worker, known, pid)
  {
    var i: nat :| i < |rows| && rows[i].pid == pid && (Proved(known, rows[i]) || pid == worker.pid);
    assert Chain(rows, worker, known, [i]);
  }

  lemma ChildDescends(rows: seq<Row>, worker: Identity, known: seq<Row>, i: nat)
    requires i < |rows| && Descends(rows, worker, known, rows[i].ppid)
    ensures Descends(rows, worker, known, rows[i].pid)
  {
    var chain :| Chain(rows, worker, known, chain) && rows[chain[|chain| - 1]].pid == rows[i].ppid;
    assert Chain(rows, worker, known, chain + [i]);
    assert (chain + [i])[|chain|] == i;
  }

  lemma {:induction false} ClosedHoldsChains(rows: seq<Row>, worker: Identity, known: seq<Row>, selected: set<Pid>,
                                             chain: seq<nat>)
    requires Closed(rows, selected) && (forall pid | Seed(rows, worker, known, pid) :: pid in selected)
    requires Chain(rows, worker, known, chain)
    ensures rows[chain[|chain| - 1]].pid in selected
  {
    if |chain| > 1 {
      var shorter := chain[..|chain| - 1];
      assert Chain(rows, worker, known, shorter);
      ClosedHoldsChains(rows, worker, known, selected, shorter);
    }
  }

  // ---------------------------------------------------------------- the closure

  function Pids(rows: seq<Row>): set<Pid> {
    set i | 0 <= i < |rows| :: rows[i].pid
  }

  /** A process table lists a pid once. */
  predicate Distinct(rows: seq<Row>) {
    forall i, j | 0 <= i < j < |rows| :: rows[i].pid != rows[j].pid
  }

  /** The rows whose pid is selected, in snapshot order. */
  function Selected(rows: seq<Row>, selected: set<Pid>): seq<Row> {
    if rows == [] then []
    else if rows[0].pid in selected then [rows[0]] + Selected(rows[1..], selected)
    else Selected(rows[1..], selected)
  }

  lemma {:induction false} SelectedExactly(rows: seq<Row>, selected: set<Pid>)
    ensures forall row :: row in Selected(rows, selected) <==> row in rows && row.pid in selected
  {
    if rows != [] {
      SelectedExactly(rows[1..], selected);
      assert rows == [rows[0]] + rows[1..];
    }
  }

  lemma {:induction false} SelectedDistinct(rows: seq<Row>, selected: set<Pid>)
    requires Distinct(rows)
    ensures Distinct(Selected(rows, selected))
  {
    if rows != [] {
      var rest := Selected(rows[1..], selected);
      SelectedDistinct(rows[1..], selected);
      SelectedExactly(rows[1..], selected);
      forall j | 0 <= j < |rest|
        ensures rest[j].pid != rows[0].pid
      {
        assert rest[j] in rows[1..];
      }
    }
  }

  /** Field by field: was this very process seen before, in the same group? */
  method IsProved(known: seq<Row>, r: Row) returns (proved: bool)
    ensures proved <==> Proved(known, r)
  {
    if r.owned {
      return true;
    }
    for i := 0 to |known|
      invariant forall j | 0 <= j < i :: known[j].pid != r.pid || known[j].started != r.started || known[j].pgid != r.pgid
    {
      if known[i].pid == r.pid && known[i].started == r.started && known[i].pgid == r.pgid {
        return true;
      }
    }
    proved := false;
  }

  method Seeds(rows: seq<Row>, worker: Identity, known: seq<Row>) returns (selected: set<Pid>)
    ensures selected <= Pids(rows)
    ensures forall pid :: pid in selected <==> Seed(rows, worker, known, pid)
  {
    selected := {};
    for i := 0 to |rows|
      invariant selected == set j | 0 <= j < i && Proved(known, rows[j]) :: rows[j].pid
    {
      var proved := IsProved(known, rows[i]);
      if proved {
        selected := selected + {rows[i].pid};
      }
    }
    var root := FindPid(rows, worker.pid);
    if root.Some? {
      selected := selected + {worker.pid};
    }
  }

  ghost predicate AllDescend(rows: seq<Row>, worker: Identity, known: seq<Row>, selected: set<Pid>) {
    forall pid | pid in selected :: Descends(rows, worker, known, pid)
  }

  /** One pass over the table: select every row whose parent is selected by now. */
  method Pass(rows: seq<Row>, worker: Identity, known: seq<Row>, before: set<Pid>) returns (selected: set<Pid>,
              changed: bool)
    requires before <= Pids(rows) && AllDescend(rows, worker, known, before)
    ensures before <= selected <= Pids(rows) && AllDescend(rows, worker, known, selected)
    ensures if changed then before < selected else selected == before && Closed(rows, selected)
  {
    selected, changed := before, false;
    for i := 0 to |rows|
      invariant before <= selected <= Pids(rows) && AllDescend(rows, worker, known, selected)
      invariant if changed then before < selected
                else selected == before && forall j | 0 <= j < i && rows[j].ppid in selected :: rows[j].pid in selected
    {
      if rows[i].ppid in selected && rows[i].pid !in selected {
        ChildDescends(rows, worker, known, i);
        selected, changed := selected + {rows[i].pid}, true;
      }
    }
  }

  method Close(rows: seq<Row>, seeds: set<Pid>, worker: Identity, known: seq<Row>) returns (selected: set<Pid>)
    requires seeds <= Pids(rows) && forall pid :: pid in seeds <==> Seed(rows, worker, known, pid)
    ensures forall pid :: pid in selected <==> Descends(rows, worker, known, pid)
  {
    selected := seeds;
    forall pid | pid in selected
      ensures Descends(rows, worker, known, pid)
    {
      SeedDescends(rows, worker, known, pid);
    }
    var changed := true;
    while changed
      invariant seeds <= selected <= Pids(rows) && AllDescend(rows, worker, known, selected)
      invariant !changed ==> Closed(rows, selected)
      decreases Pids(rows) - selected, changed
    {
      selected, changed := Pass(rows, worker, known, selected);
    }
    ClosedHoldsDescent(rows, worker, known, selected);
  }

  lemma ClosedHoldsDescent(rows: seq<Row>, worker: Identity, known: seq<Row>, selected: set<Pid>)
    requires Closed(rows, selected) && (forall pid | Seed(rows, worker, known, pid) :: pid in selected)
    ensures forall pid | Descends(rows, worker, known, pid) :: pid in selected
  {
    forall pid | Descends(rows, worker, known, pid)
      ensures pid in selected
    {
      var chain :| Chain(rows, worker, known, chain) && rows[chain[|chain| - 1]].pid == pid;
      ClosedHoldsChains(rows, worker, known, selected, chain);
    }
  }

  /** The worker's row, if it is still in the table, is the registered process and has a proof. */
  predicate RootProved(rows: seq<Row>, worker: Identity, known: seq<Row>) {
    var root := FindPid(rows, worker.pid);
    root.Some? ==> root.value.started == worker.started && Proved(known, root.value)
  }

  /** What an inventory is refused for. */
  ghost predicate Unclear(rows: seq<Row>, worker: Identity, known: seq<Row>) {
    || !RootProved(rows, worker, known)
    || (exists i | 0 <= i < |rows| :: rows[i].pgid == worker.pid && !Descends(rows, worker, known, rows[i].pid))
    || exists selected :: (forall pid :: pid in selected <==> Descends(rows, worker, known, pid)) && |Selected(rows, selected)| > 256
  }

  /** The inventory is exactly the rows that descend from a seed. It is refused when the worker's
      pid now belongs to another process, when a member of the worker's group has no proof, or
      when there are too many. */
  method OwnedTree(rows: seq<Row>, worker: Identity, known: seq<Row>) returns (r: Inventory)
    ensures r == Refused(IdentityChanged) <==> !RootProved(rows, worker, known)
    ensures RootProved(rows, worker, known) ==>
              (r == Refused(GroupUnproved) <==>
                 exists i | 0 <= i < |rows| :: rows[i].pgid == worker.pid && !Descends(rows, worker, known, rows[i].pid))
    ensures r.Tree? ==> |r.rows| <= INVENTORY_LIMIT && (Distinct(rows) ==> Distinct(r.rows))
    ensures r.Tree? ==> forall row :: row in r.rows <==> row in rows && Descends(rows, worker, known, row.pid)
    ensures r == Refused(TooMany) ==>
              exists selected :: (forall pid :: pid in selected <==> Descends(rows, worker, known, pid)) && |Selected(rows, selected)| > INVENTORY_LIMIT
    ensures r.Refused? <==> Unclear(rows, worker, known)
  {
    var root := FindPid(rows, worker.pid);
    if root.Some? {
      var proved := IsProved(known, root.value);
      if !proved || root.value.started != worker.started {
        return Refused(IdentityChanged);
      }
    }
    var seeds := Seeds(rows, worker, known);
    var selected := Close(rows, seeds, worker, known);
    if exists i | 0 <= i < |rows| :: rows[i].pgid == worker.pid && rows[i].pid !in selected {
      return Refused(GroupUnproved);
    }
    var tree := Selected(rows, selected);
    SelectedExactly(rows, selected);
    if Distinct(rows) {
      SelectedDistinct(rows, selected);
    }
    if |tree| > INVENTORY_LIMIT {
      return Refused(TooMany);
    }
    assert forall other | (forall pid :: pid in other <==> Descends(rows, worker, known, pid)) && |Selected(rows, other)| > INVENTORY_LIMIT ::
             other == selected;
    r := Tree(tree);
  }

  /** Every owned process keeps being owned when a witness list that includes it is carried to a
      snapshot in which it lost its environment and its parent. */
  lemma WitnessKeepsOwned(rows: seq<Row>, worker: Identity, known: seq<Row>, rows': seq<Row>, tree: seq<Row>, i: nat)
    requires i < |rows'| && exists j | 0 <= j < |tree| ::
               tree[j].pid == rows'[i].pid && tree[j].started == rows'[i].started && tree[j].pgid == rows'[i].pgid
    ensures Descends(rows', worker, tree, rows'[i].pid)
  {
    assert Witnessed(tree, rows'[i]);
    SeedDescends(rows', worker, tree, rows'[i].pid);
  }

  // ---------------------------------------------------------------- signalling

  datatype Delivery = Sent | Gone | Unproved

  /** A signal is sent only to the very process that was asked for, still with a proof. The last
      argument says whether the process exits before the signal reaches it. */
  method SignalOwned(rows: seq<Row>, expected: Identity, known: seq<Row>, exits: bool) returns (d: Delivery)
    ensures d.Sent? ==> exists row :: row in rows && IdentityOf(row) == expected && Proved(known, row)
    ensures d.Unproved? ==> exists row :: row in rows && row.pid == expected.pid && !(IdentityOf(row) == expected && Proved(known, row))
    ensures d.Gone? ==> exits || !HasPid(rows, expected.pid)
  {
    var current := FindPid(rows, expected.pid);
    if current.None? {
      return Gone;
    }
    var proved := IsProved(known, current.value);
    if !proved || current.value.started != expected.started {
      return Unproved;
    }
    d := if exits then Gone else Sent;
  }
}

/** Installing, upgrading any number of times with arbitrary resource sets, and uninstalling. What
    each plan computes from the disk and the manifest, and what the whole sequence brings back. */
module InstallLifecycle {
  import opened Options
  import opened Transactions
  import opened AgentsText

  const AGENTS: Path := "AGENTS.md"
  const DEFAULT_MODE := 0x1A4

  /** A resource of a package. A merged one may differ from what it replaces. */
  datatype Input = Input(content: string, mode: Option<nat>, merge: bool)

  /** A manifest entry: what was written, and what was there before the package. */
  datatype Managed = Managed(content: string, mode: nat, previous: Option<File>)
  type Manifest = map<Path, Managed>

  function ContentOf(f: Option<File>): Option<string> {
    if f.Some? then Some(f.value.content) else None
  }

  function TextOf(f: Option<File>): string {
    if f.Some? then f.value.content else ""
  }

  // ---------------------------------------------------------------- planning an installation

  predicate InstallConflict(d: Disk, p: Path, i: Input) {
    p in d && ((d[p].content != i.content && !i.merge) || (i.mode.Some? && i.mode.value != d[p].mode))
  }

  function ModeOf(i: Input, managed: Option<Managed>, current: Option<File>): nat {
    if i.mode.Some? then i.mode.value
    else if managed.Some? then managed.value.mode
    else if current.Some? then current.value.mode
    else DEFAULT_MODE
  }

  function InstallPlan(d: Disk, resources: map<Path, Input>, fragment: string): Option<Manifest> {
    var merged := MergeAgentsContent(TextOf(Get(d, AGENTS)), fragment);
    if merged.Failed? then None
    else
      var inputs := resources[AGENTS := Input(merged.content, None, true)];
      if exists p | p in inputs :: InstallConflict(d, p, inputs[p]) then None
      else Some(map p | p in inputs :: Managed(inputs[p].content, ModeOf(inputs[p], None, Get(d, p)), Get(d, p)))
  }

  // ---------------------------------------------------------------- planning an upgrade

  predicate Intact(d: Disk, m: Manifest) {
    AGENTS in m && forall p | p in m :: p in d && (p == AGENTS || d[p].content == m[p].content)
  }

  predicate UpgradeConflict(d: Disk, m: Manifest, p: Path, i: Input) {
    p !in m && p in d && !i.merge && d[p] != File(i.content, ModeOf(i, None, Get(d, p)))
  }

  function ManagedAt(m: Manifest, p: Path): Option<Managed> {
    if p in m then Some(m[p]) else None
  }

  function UpgradePlan(d: Disk, m: Manifest, resources: map<Path, Input>, fragment: string): Option<Manifest> {
    if !Intact(d, m) then None
    else
      var merged := MergeForUpgrade(d[AGENTS].content, ContentOf(m[AGENTS].previous), fragment);
      if merged.Refused? then None
      else
        var mode := d[AGENTS].mode;
        var inputs := resources[AGENTS := Input(merged.content, Some(mode), true)];
        var original := if merged.previous.Some? then Some(File(merged.previous.value, mode)) else None;
        if exists p | p in inputs :: UpgradeConflict(d, m, p, inputs[p]) then None
        else Some(map p | p in inputs ::
          Managed(inputs[p].content, ModeOf(inputs[p], ManagedAt(m, p), Get(d, p)),
                  if p == AGENTS then original else if p in m then m[p].previous else Get(d, p)))
  }

  // ---------------------------------------------------------------- planning an uninstallation

  /** The state a path is left in: the original if the path holds what was installed, and otherwise
      whatever it holds. */
  function UninstallState(current: Option<File>, f: Managed): Option<File> {
    if current == f.previous then current
    else if current == Some(File(f.content, f.mode)) then f.previous
    else current
  }

  /** Uninstalling never discards an edit: a path that holds neither the original nor what was
      installed keeps what it holds; every other managed path ends with the original. */
  lemma UninstallKeepsEdits(d: Disk, m: Manifest, p: Path)
    requires p in m
    ensures var edited := Get(d, p) != m[p].previous && Get(d, p) != Some(File(m[p].content, m[p].mode));
            UninstallState(Get(d, p), m[p]) == if edited then Get(d, p) else m[p].previous
  {
  }

  /** An accepted plan overwrites no file of the user: what it newly takes over is absent, merged,
      or already has the planned content and mode. An installation never changes a mode. */
  lemma InstallOverwritesNothing(d: Disk, resources: map<Path, Input>, f: string, p: Path)
    requires InstallPlan(d, resources, f).Some? && p in d && p in InstallPlan(d, resources, f).value
    ensures var m := InstallPlan(d, resources, f).value[p];
            m.mode == d[p].mode && m.previous == Some(d[p]) && (m.content == d[p].content || p == AGENTS || resources[p].merge)
  {
  }

  lemma UpgradeOverwritesNothing(d: Disk, m: Manifest, resources: map<Path, Input>, f: string, p: Path)
    requires AGENTS !in resources && UpgradePlan(d, m, resources, f).Some?
    requires p in UpgradePlan(d, m, resources, f).value && p in d
    ensures var m' := UpgradePlan(d, m, resources, f).value[p];
            if p in m then p == AGENTS || (d[p].content == m[p].content && m'.previous == m[p].previous)
            else m'.previous == Some(d[p]) && (File(m'.content, m'.mode) == d[p] || resources[p].merge)
  {
  }

  // ---------------------------------------------------------------- what a plan delivers

  /** The mode a resource asks for, or else the one its path had in the installation, or has, or the default. */
  predicate HasMode(mode: nat, i: Input, managed: Option<Managed>, current: Option<File>) {
    && (i.mode.Some? ==> mode == i.mode.value)
    && (i.mode.None? && managed.Some? ==> mode == managed.value.mode)
    && (i.mode.None? && managed.None? && current.Some? ==> mode == current.value.mode)
    && (i.mode.None? && managed.None? && current.None? ==> mode == 0x1A4)
  }

  /** An installation is refused exactly if a file of the user stands in the way of a resource: it differs and is not
      merged, or its mode is not the one asked for. */
  lemma InstallRefuses(d: Disk, resources: map<Path, Input>, f: string)
    requires Unmarked(d) && AGENTS !in resources
    ensures InstallPlan(d, resources, f).None? <==> InstallInTheWay(d, resources)
  {
    hide AppendManagedBlock, MergeAgentsContent, BeginMarker, EndMarker, Absent;
    UnmarkedMerge(TextOf(Get(d, AGENTS)), f);
    var inputs := resources[AGENTS := Input(AppendManagedBlock(TextOf(Get(d, AGENTS)), f), None, true)];
    assert forall p | p in resources :: p in inputs && inputs[p] == resources[p];
  }

  /** An accepted installation plans every resource, with its content, and the block appended to AGENTS.md. */
  lemma InstallDelivers(d: Disk, resources: map<Path, Input>, f: string)
    requires AGENTS !in resources && Unmarked(d) && InstallPlan(d, resources, f).Some?
    ensures var m := InstallPlan(d, resources, f).value;
            && m.Keys == resources.Keys + {AGENTS}
            && m[AGENTS].content == AppendManagedBlock(TextOf(Get(d, AGENTS)), f)
            && m[AGENTS].mode == (if AGENTS in d then d[AGENTS].mode else 0x1A4)
            && forall p | p in resources ::
                 m[p].content == resources[p].content && HasMode(m[p].mode, resources[p], None, Get(d, p))
  {
    hide AppendManagedBlock, MergeAgentsContent, BeginMarker, EndMarker, Absent;
    UnmarkedMerge(TextOf(Get(d, AGENTS)), f);
  }

  /** So does an accepted upgrade. */
  lemma UpgradeDelivers(d: Disk, m: Manifest, resources: map<Path, Input>, f: string)
    requires AGENTS !in resources && UpgradePlan(d, m, resources, f).Some?
    ensures var m' := UpgradePlan(d, m, resources, f).value;
            && m'.Keys == resources.Keys + {AGENTS}
            && AGENTS in d && m'[AGENTS].mode == d[AGENTS].mode
            && forall p | p in resources ::
                 m'[p].content == resources[p].content && HasMode(m'[p].mode, resources[p], ManagedAt(m, p), Get(d, p))
  {
    hide AppendManagedBlock, MergeForUpgrade;
  }

  /** An upgrade of an installation that nobody edited is refused exactly if a file of the user, at a path that is
      new to the package, is not merged and differs in content or in the mode asked for. */
  lemma UpgradeRefuses(d: Disk, m: Manifest, e: Disk, f: string, resources: map<Path, Input>, g: string)
    requires Remembers(d, m, e) && AgentsMerged(m, e, f) && Unmarked(e) && Fragment(g) && AGENTS !in resources
    ensures UpgradePlan(d, m, resources, g).None? <==> UpgradeInTheWay(d, m, resources)
  {
    hide AppendManagedBlock, MergeForUpgrade, BeginMarker, EndMarker, Fragment, Separator, LineEnding, Recoverable, Absent;
    var original := Get(e, AGENTS);
    assert m[AGENTS].previous == original && d[AGENTS] == File(m[AGENTS].content, m[AGENTS].mode);
    UpgradeRoundTrip(ContentOf(original), f, g);
    assert Intact(d, m);
    forall p | p in resources
      ensures UpgradeConflict(d, m, p, resources[p]) <==>
                p !in m && p in d && !resources[p].merge &&
                (d[p].content != resources[p].content || (resources[p].mode.Some? && resources[p].mode.value != d[p].mode))
    {
    }
  }

  /** In general, edits included: refused exactly if a managed file is gone, one other than AGENTS.md was edited,
      the block in AGENTS.md cannot be found, or a file of the user stands in the way. */
  lemma UpgradeRefusesExactly(d: Disk, m: Manifest, resources: map<Path, Input>, f: string)
    requires AGENTS in m && AGENTS !in resources
    ensures UpgradePlan(d, m, resources, f).None? <==>
              || (exists p | p in m :: p !in d || (p != AGENTS && d[p].content != m[p].content))
              || MergeForUpgrade(TextOf(Get(d, AGENTS)), ContentOf(m[AGENTS].previous), f).Refused?
              || UpgradeInTheWay(d, m, resources)
  {
    hide MergeForUpgrade;
    forall p | p in resources
      ensures UpgradeConflict(d, m, p, resources[p]) <==>
                p !in m && p in d && !resources[p].merge &&
                (d[p].content != resources[p].content || (resources[p].mode.Some? && resources[p].mode.value != d[p].mode))
    {
    }
    if UpgradeInTheWay(d, m, resources) && Intact(d, m) {
      var p :| p in resources && p !in m && p in d && !resources[p].merge &&
               (d[p].content != resources[p].content || (resources[p].mode.Some? && resources[p].mode.value != d[p].mode));
      assert UpgradeConflict(d, m, p, resources[p]);
    }
  }

  /** What a committed release leaves: every resource with its content and mode, the block in AGENTS.md after the text
      from before the package, and everything else as before the package. */
  ghost predicate Delivered(d: Disk, resources: map<Path, Input>, block: string, before: Disk, was: Disk, m: Manifest) {
    && (forall p | p in resources ::
          p in d && d[p].content == resources[p].content && HasMode(d[p].mode, resources[p], ManagedAt(m, p), Get(was, p)))
    && AGENTS in d && d[AGENTS].content == AppendManagedBlock(TextOf(Get(before, AGENTS)), block)
    && d[AGENTS].mode == (if AGENTS in was then was[AGENTS].mode else 0x1A4)
    && (forall p | p !in resources && p != AGENTS :: Get(d, p) == Get(before, p))
  }

  ghost predicate UpgradeInTheWay(d: Disk, m: Manifest, resources: map<Path, Input>) {
    exists p | p in resources && p !in m && p in d ::
      !resources[p].merge &&
      (d[p].content != resources[p].content || (resources[p].mode.Some? && resources[p].mode.value != d[p].mode))
  }

  ghost predicate InstallInTheWay(d: Disk, resources: map<Path, Input>) {
    exists p | p in resources && p in d ::
      (d[p].content != resources[p].content && !resources[p].merge) ||
      (resources[p].mode.Some? && resources[p].mode.value != d[p].mode)
  }

  lemma UpgradeDone(d: Disk, m: Manifest, resources: map<Path, Input>, g: string, d': Disk, before: Disk)
    requires AGENTS !in resources && UpgradePlan(d, m, resources, g).Some?
    requires Remembers(d', UpgradePlan(d, m, resources, g).value, before) && AgentsMerged(UpgradePlan(d, m, resources, g).value, before, g)
    ensures Delivered(d', resources, g, before, d, m)
  {
    hide UpgradePlan, AppendManagedBlock;
    UpgradeDelivers(d, m, resources, g);
  }

  lemma InstallDone(d: Disk, resources: map<Path, Input>, f: string, d': Disk)
    requires AGENTS !in resources && Unmarked(d) && InstallPlan(d, resources, f).Some?
    requires Remembers(d', InstallPlan(d, resources, f).value, d) && AgentsMerged(InstallPlan(d, resources, f).value, d, f)
    ensures Delivered(d', resources, f, d, d, map[])
  {
    hide InstallPlan, AppendManagedBlock;
    InstallDelivers(d, resources, f);
  }

  // ---------------------------------------------------------------- plans as entries

  function Desired(m: Manifest): map<Path, Option<File>> {
    map p | p in m :: Some(File(m[p].content, m[p].mode))
  }

  function Removed(m: Manifest, m': Manifest): map<Path, Option<File>> {
    map p | p in m && p !in m' :: m[p].previous
  }

  function Uninstalled(d: Disk, m: Manifest): map<Path, Option<File>> {
    map p | p in m :: UninstallState(Get(d, p), m[p])
  }

  ghost predicate Lists(plan: seq<Entry>, d: Disk, after: map<Path, Option<File>>) {
    && Paths(plan)
    && (forall i | 0 <= i < |plan| :: plan[i].path in after && plan[i] == Entry(plan[i].path, Get(d, plan[i].path), after[plan[i].path]))
    && (forall p | p in after :: Mentions(plan, p))
  }

  method Entries(d: Disk, after: map<Path, Option<File>>) returns (plan: seq<Entry>)
    ensures Lists(plan, d, after)
  {
    plan := [];
    var rest := after.Keys;
    while rest != {}
      invariant rest <= after.Keys && Paths(plan)
      invariant forall i | 0 <= i < |plan| :: plan[i].path in after.Keys - rest &&
                  plan[i] == Entry(plan[i].path, Get(d, plan[i].path), after[plan[i].path])
      invariant forall p | p in after.Keys - rest :: Mentions(plan, p)
      decreases rest
    {
      var p :| p in rest;
      ghost var was := plan;
      plan, rest := plan + [Entry(p, Get(d, p), after[p])], rest - {p};
      forall q | q in after.Keys - rest
        ensures Mentions(plan, q)
      {
        if q == p {
          assert plan[|was|].path == p;
        } else {
          assert Mentions(was, q);
          var i :| 0 <= i < |was| && was[i].path == q;
          assert plan[i].path == q;
        }
      }
    }
  }

  /** What a committed transaction makes of the disk. */
  lemma AppliedAt(plan: seq<Entry>, d: Disk, after: map<Path, Option<File>>, d': Disk, p: Path)
    requires Lists(plan, d, after) && AllAfter(d', plan) && SameElsewhere(d, d', plan)
    ensures Get(d', p) == if p in after then after[p] else Get(d, p)
  {
  }

  /** What a transaction that was rolled back leaves. */
  lemma RolledBackAt(plan: seq<Entry>, d: Disk, after: map<Path, Option<File>>, d': Disk, p: Path)
    requires Lists(plan, d, after) && AllBefore(d', plan) && SameElsewhere(d, d', plan)
    ensures Get(d', p) == Get(d, p)
  {
  }

  // ---------------------------------------------------------------- what the sequence keeps

  /** e is what uninstalling would bring back: managed paths remember it, others still hold it. */
  ghost predicate Remembers(d: Disk, m: Manifest, e: Disk) {
    && (forall p | p in m :: Get(d, p) == Some(File(m[p].content, m[p].mode)) && m[p].previous == Get(e, p))
    && (forall p | p !in m :: Get(d, p) == Get(e, p))
  }

  ghost predicate Unmarked(e: Disk) {
    var text := TextOf(Get(e, AGENTS));
    Absent(text, BeginMarker()) && Absent(text, EndMarker())
  }

  ghost predicate AgentsMerged(m: Manifest, e: Disk, f: string) {
    && AGENTS in m && Fragment(f) && m[AGENTS].content == AppendManagedBlock(TextOf(Get(e, AGENTS)), f)
    && (AGENTS in e ==> m[AGENTS].mode == e[AGENTS].mode)
  }

  /** The one thing an upgrade may lose: the exact text of an AGENTS.md that is not recoverable. */
  function Drift(e: Disk): Disk {
    if AGENTS in e && !Recoverable(e[AGENTS].content) then
      e[AGENTS := File(e[AGENTS].content + Separator(e[AGENTS].content, CRLF), e[AGENTS].mode)]
    else e
  }

  lemma DriftKeepsUnmarked(e: Disk)
    requires Unmarked(e)
    ensures Unmarked(Drift(e)) && Drift(Drift(e)) == Drift(e)
    ensures AppendsAlike(e)
  {
    hide BeginMarker, EndMarker, AppendManagedBlock, Separator, LineEnding;
    var text := TextOf(Get(e, AGENTS));
    if AGENTS in e && !Recoverable(text) {
      MarkersAreMarkers();
      SeparatorCuts(text);
      JoinedAbsent(text, Separator(text, CRLF), BeginMarker());
      JoinedAbsent(text, Separator(text, CRLF), EndMarker());
      SeparatedCrlf(text);
      CrlfText(text);
      forall f
        ensures AppendManagedBlock(TextOf(Get(Drift(e), AGENTS)), f) == AppendManagedBlock(text, f)
      {
        AppendAgain(text, f);
      }
    }
  }

  ghost predicate AppendsAlike(e: Disk) {
    forall f :: AppendManagedBlock(TextOf(Get(Drift(e), AGENTS)), f) == AppendManagedBlock(TextOf(Get(e, AGENTS)), f)
  }

  lemma InstallRemembers(d: Disk, resources: map<Path, Input>, f: string, plan: seq<Entry>, d': Disk)
    requires Fragment(f) && Unmarked(d) && AGENTS !in resources && InstallPlan(d, resources, f).Some?
    requires Lists(plan, d, Desired(InstallPlan(d, resources, f).value)) && AllAfter(d', plan) && SameElsewhere(d, d', plan)
    ensures Remembers(d', InstallPlan(d, resources, f).value, d) && AgentsMerged(InstallPlan(d, resources, f).value, d, f)
  {
    hide AppendManagedBlock, MergeAgentsContent, BeginMarker, EndMarker, Fragment;
    var m := InstallPlan(d, resources, f).value;
    UnmarkedMerge(TextOf(Get(d, AGENTS)), f);
    forall p
      ensures Get(d', p) == if p in m then Some(File(m[p].content, m[p].mode)) else Get(d, p)
    {
      AppliedAt(plan, d, Desired(m), d', p);
    }
  }

  /** The AGENTS entry of an upgrade: the block is replaced, and the original is remembered up to
      the drift. */
  lemma UpgradeAgents(d: Disk, m: Manifest, e: Disk, f: string, resources: map<Path, Input>, g: string)
    requires Remembers(d, m, e) && AgentsMerged(m, e, f) && Unmarked(e) && Fragment(g)
    requires UpgradePlan(d, m, resources, g).Some?
    ensures var m' := UpgradePlan(d, m, resources, g).value;
            && AgentsMerged(m', Drift(e), g) && m'[AGENTS].previous == Get(Drift(e), AGENTS)
  {
    hide AppendManagedBlock, MergeForUpgrade, BeginMarker, EndMarker, Fragment, Separator, LineEnding, Recoverable;
    var original := Get(e, AGENTS);
    assert m[AGENTS].previous == original && d[AGENTS] == File(m[AGENTS].content, m[AGENTS].mode);
    UpgradeRoundTrip(ContentOf(original), f, g);
    NothingIsRecoverable();
    DriftKeepsUnmarked(e);
  }

  lemma NothingIsRecoverable()
    ensures Recoverable("")
  {
  }

  /** Paths added, kept, dropped or re-added: each remembers what was there before the package. */
  lemma UpgradePrevious(d: Disk, m: Manifest, e: Disk, resources: map<Path, Input>, g: string, p: Path)
    requires Remembers(d, m, e) && UpgradePlan(d, m, resources, g).Some? && p != AGENTS
    ensures var m' := UpgradePlan(d, m, resources, g).value;
            p in m' ==> m'[p].previous == Get(Drift(e), p)
    ensures p in m ==> m[p].previous == Get(Drift(e), p)
    ensures p !in m ==> Get(d, p) == Get(Drift(e), p)
  {
  }

  lemma UpgradeRemembers(d: Disk, m: Manifest, e: Disk, f: string, resources: map<Path, Input>, g: string,
                         desired: seq<Entry>, removed: seq<Entry>, d': Disk)
    requires Remembers(d, m, e) && AgentsMerged(m, e, f) && Unmarked(e) && Fragment(g) && AGENTS !in resources
    requires UpgradePlan(d, m, resources, g).Some?
    requires var m' := UpgradePlan(d, m, resources, g).value;
             Lists(desired, d, Desired(m')) && Lists(removed, d, Removed(m, m'))
    requires AllAfter(d', desired + removed) && SameElsewhere(d, d', desired + removed)
    ensures var m' := UpgradePlan(d, m, resources, g).value;
            Remembers(d', m', Drift(e)) && AgentsMerged(m', Drift(e), g) && Unmarked(Drift(e))
  {
    hide AppendManagedBlock, MergeForUpgrade, BeginMarker, EndMarker, Fragment, Separator, LineEnding, Recoverable, Absent,
         Drift, UpgradePlan, Lists, AllAfter, SameElsewhere, Unmarked;
    var m' := UpgradePlan(d, m, resources, g).value;
    UpgradeAgents(d, m, e, f, resources, g);
    DriftKeepsUnmarked(e);
    forall p
      ensures p in m' ==> Get(d', p) == Some(File(m'[p].content, m'[p].mode)) && m'[p].previous == Get(Drift(e), p)
      ensures p !in m' ==> Get(d', p) == Get(Drift(e), p)
    {
      UpgradedAt(d, m, m', desired, removed, d', p);
      if p != AGENTS {
        UpgradePrevious(d, m, e, resources, g, p);
      }
    }
  }

  lemma UpgradedAt(d: Disk, m: Manifest, m': Manifest, desired: seq<Entry>, removed: seq<Entry>, d': Disk, p: Path)
    requires Lists(desired, d, Desired(m')) && Lists(removed, d, Removed(m, m'))
    requires AllAfter(d', desired + removed) && SameElsewhere(d, d', desired + removed)
    ensures Get(d', p) == if p in m' then Some(File(m'[p].content, m'[p].mode)) else if p in m then m[p].previous else Get(d, p)
  {
    var plan := desired + removed;
    if p in m' {
      assert Mentions(desired, p);
      var i :| 0 <= i < |desired| && desired[i].path == p;
      assert plan[i] == desired[i];
    } else if p in m {
      assert Mentions(removed, p);
      var i :| 0 <= i < |removed| && removed[i].path == p;
      assert plan[|desired| + i] == removed[i];
    } else {
      assert !Mentions(plan, p);
    }
  }

  lemma UninstallRestores(d: Disk, m: Manifest, e: Disk, plan: seq<Entry>, d': Disk)
    requires Remembers(d, m, e) && Lists(plan, d, Uninstalled(d, m)) && AllAfter(d', plan) && SameElsewhere(d, d', plan)
    ensures d' == e
  {
    forall p
      ensures Get(d', p) == Get(e, p)
    {
      AppliedAt(plan, d, Uninstalled(d, m), d', p);
    }
    SameDisk(d', e);
  }

  lemma SameDisk(a: Disk, b: Disk)
    requires forall p :: Get(a, p) == Get(b, p)
    ensures a == b
  {
    forall p
      ensures (p in a <==> p in b) && (p in a ==> a[p] == b[p])
    {
      assert Get(a, p) == Get(b, p);
    }
  }

  lemma RollbackRestores(plan: seq<Entry>, d: Disk, after: map<Path, Option<File>>, d': Disk)
    requires Lists(plan, d, after) && AllBefore(d', plan) && SameElsewhere(d, d', plan)
    ensures d' == d
  {
    forall p
      ensures Get(d', p) == Get(d, p)
    {
      RolledBackAt(plan, d, after, d', p);
    }
    SameDisk(d', d);
  }

  lemma ListsDisjoint(desired: seq<Entry>, removed: seq<Entry>, d: Disk, m: Manifest, m': Manifest)
    requires Lists(desired, d, Desired(m')) && Lists(removed, d, Removed(m, m'))
    ensures Paths(desired + removed) && AllBefore(d, desired + removed)
    ensures Lists(desired + removed, d, Desired(m') + Removed(m, m'))
  {
    var plan, after := desired + removed, Desired(m') + Removed(m, m');
    forall p | p in after
      ensures Mentions(plan, p)
    {
      if p in m' {
        var i :| 0 <= i < |desired| && desired[i].path == p;
        assert plan[i] == desired[i];
      } else {
        var i :| 0 <= i < |removed| && removed[i].path == p;
        assert plan[|desired| + i] == removed[i];
      }
    }
  }

  // ---------------------------------------------------------------- the sequence

  datatype Attempt = NotPlanned | Undone | Done

  /** An installed project. Every transaction may fail at any step; rollbacks do not, and nobody
      else edits. */
  class Installation {
    const project: Project
    var managed: Manifest
    var stamp: nat
    /** What an uninstallation would bring back, and the installed block. */
    ghost var original: Disk
    ghost var fragment: string

    ghost predicate Valid()
      reads this, project
    {
      && project.calm && project.reliable && project.manifest == Some(stamp)
      && Remembers(project.disk, managed, original) && AgentsMerged(managed, original, fragment) && Unmarked(original)
    }

    constructor (project: Project, managed: Manifest, stamp: nat, ghost original: Disk, ghost fragment: string)
      requires project.calm && project.reliable && project.manifest == Some(stamp)
      requires Remembers(project.disk, managed, original) && AgentsMerged(managed, original, fragment) && Unmarked(original)
      ensures Valid() && this.project == project && this.managed == managed && this.original == original
    {
      this.project, this.managed, this.stamp, this.original, this.fragment := project, managed, stamp, original, fragment;
    }

    /** One upgrade. It is refused, rolled back, or done; only the last changes anything. */
    method Upgrade(resources: map<Path, Input>, block: string, next: nat, mark: nat) returns (a: Attempt)
      requires Valid() && Fragment(block) && AGENTS !in resources && next != stamp
      modifies this, project
      ensures Valid()
      ensures a == NotPlanned <==> UpgradeInTheWay(old(project.disk), old(managed), resources)
      ensures a == Undone ==> !project.faultless
      ensures a == Done ==> original == Drift(old(original)) && managed.Keys == resources.Keys + {AGENTS}
      ensures a == Done ==> Delivered(project.disk, resources, block, original, old(project.disk), old(managed))
      ensures a == Done ==> project.manifest == Some(next)
      ensures a != Done ==> original == old(original) && managed == old(managed) && project.disk == old(project.disk)
    {
      hide Remembers, AgentsMerged, Unmarked, Fragment, UpgradePlan, Lists, Paths, AllBefore, AllAfter, Safe, SameElsewhere, Drift,
           Delivered, UpgradeInTheWay, HasMode;
      UpgradeRefuses(project.disk, managed, original, fragment, resources, block);
      var plan := UpgradePlan(project.disk, managed, resources, block);
      if plan.None? {
        return NotPlanned;
      }
      ghost var start := project.disk;
      var desired := Entries(project.disk, Desired(plan.value));
      var removed := Entries(project.disk, Removed(managed, plan.value));
      ListsDisjoint(desired, removed, project.disk, managed, plan.value);
      BeforeIsSafe(project.disk, desired + removed);
      project.marker := Some(mark);
      var r := project.Upgrade(desired, removed, stamp, next, mark);
      if project.manifest == Some(next) {
        UpgradeRemembers(start, managed, original, fragment, resources, block, desired, removed, project.disk);
        UpgradeDelivers(start, managed, resources, block);
        UpgradeDone(start, managed, resources, block, project.disk, Drift(original));
        managed, stamp, original, fragment := plan.value, next, Drift(original), block;
        a := Done;
      } else {
        RollbackRestores(desired + removed, start, Desired(plan.value) + Removed(managed, plan.value), project.disk);
        a := Undone;
      }
    }

    method Uninstall(mark: nat) returns (done: bool)
      requires Valid()
      modifies project
      ensures done ==> project.disk == original && project.manifest == None
      ensures !done ==> Valid() && project.disk == old(project.disk) && !project.faultless
    {
      hide Remembers, AgentsMerged, Unmarked, Fragment, Lists, Paths, AllBefore, AllAfter, Safe, SameElsewhere;
      ghost var start := project.disk;
      var plan := Entries(project.disk, Uninstalled(project.disk, managed));
      ListedBefore(plan, project.disk, Uninstalled(project.disk, managed));
      BeforeIsSafe(project.disk, plan);
      project.marker := Some(mark);
      var r := project.Uninstall(plan, |plan|, stamp, mark);
      done := project.manifest == None;
      if done {
        UninstallRestores(start, managed, original, plan, project.disk);
      } else {
        RollbackRestores(plan, start, Uninstalled(start, managed), project.disk);
      }
    }
  }

  /** An installation into a project without markers. If it is refused or rolled back, nothing changed. */
  method Install(project: Project, resources: map<Path, Input>, block: string) returns (a: Attempt, i: Installation?)
    requires project.calm && project.reliable && project.manifest == None
    requires Fragment(block) && Unmarked(project.disk) && AGENTS !in resources
    modifies project
    ensures a == NotPlanned <==> InstallInTheWay(old(project.disk), resources)
    ensures a == Undone ==> !project.faultless
    ensures (a == Done) <==> i != null
    ensures a != Done ==> project.disk == old(project.disk) && project.manifest == None
    ensures a == Done ==> fresh(i) && i.project == project && i.Valid() && i.original == old(project.disk)
    ensures a == Done ==> i.managed.Keys == resources.Keys + {AGENTS}
    ensures a == Done ==> Delivered(project.disk, resources, block, old(project.disk), old(project.disk), map[])
  {
    hide Remembers, AgentsMerged, Unmarked, Fragment, Lists, Paths, AllBefore, AllAfter, Safe, SameElsewhere, InstallPlan,
         Delivered, InstallInTheWay, HasMode;
    InstallRefuses(project.disk, resources, block);
    var plan := InstallPlan(project.disk, resources, block);
    if plan.None? {
      return NotPlanned, null;
    }
    ghost var start := project.disk;
    var entries := Entries(project.disk, Desired(plan.value));
    ListedBefore(entries, project.disk, Desired(plan.value));
    BeforeIsSafe(project.disk, entries);
    project.manifest := Some(0);
    var r := project.Install(entries, 0, 1);
    if project.manifest == Some(1) {
      InstallRemembers(start, resources, block, entries, project.disk);
      InstallDelivers(start, resources, block);
      InstallDone(start, resources, block, project.disk);
      i := new Installation(project, plan.value, 1, start, block);
      a := Done;
    } else {
      RollbackRestores(entries, start, Desired(plan.value), project.disk);
      a, i := Undone, null;
    }
  }

  datatype Release = Release(resources: map<Path, Input>, block: string)

  ghost predicate Packaged(r: Release) {
    Fragment(r.block) && AGENTS !in r.resources
  }

  /** Install, any number of upgrades with any resources, some of which fail, and uninstall. Every
      path ever managed is back as it was, contents and mode, if AGENTS.md was absent or is
      recoverable; otherwise AGENTS.md alone may have kept the separator. */
  method Lifecycle(project: Project, first: Release, upgrades: seq<Release>) returns (done: bool)
    requires project.calm && project.reliable && project.manifest == None && Unmarked(project.disk)
    requires Packaged(first) && forall k | 0 <= k < |upgrades| :: Packaged(upgrades[k])
    modifies project
    ensures done ==> project.disk in {old(project.disk), Drift(old(project.disk))} && project.manifest == None
    ensures done && Recoverable(TextOf(Get(old(project.disk), AGENTS))) ==> project.disk == old(project.disk)
    ensures done && upgrades == [] ==> project.disk == old(project.disk)
    ensures project.faultless ==> done
  {
    hide Fragment, Unmarked, Recoverable, Separator;
    DriftKeepsUnmarked(project.disk);
    ghost var start := project.disk;
    var a, i := Install(project, first.resources, first.block);
    if i == null {
      return true;
    }
    for k := 0 to |upgrades|
      invariant i.Valid() && i.project == project && fresh(i)
      invariant i.original == start || (k > 0 && i.original == Drift(start))
    {
      var _ := i.Upgrade(upgrades[k].resources, upgrades[k].block, i.stamp + 1, k);
    }
    done := i.Uninstall(0);
  }

  lemma BeforeIsSafe(d: Disk, plan: seq<Entry>)
    requires AllBefore(d, plan)
    ensures Safe(d, plan, false)
  {
  }

  lemma ListedBefore(plan: seq<Entry>, d: Disk, after: map<Path, Option<File>>)
    requires Lists(plan, d, after)
    ensures AllBefore(d, plan) && Paths(plan)
  {
  }
}

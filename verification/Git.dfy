/** The part of Git that the local commit transaction relies on: immutable commit
    objects, branch references, and the two checkouts (the source root and, for
    isolated tasks, a linked worktree). Tree contents are opaque identifiers. */
module Git {
  import opened Options

  type Commit = nat
  type Tree = nat

  datatype Object = Object(tree: Tree, parent: Option<Commit>)
  datatype Branch = Task | Target | Other(name: nat)
  datatype Head = OnBranch(branch: Branch) | Detached(commit: Commit)
  datatype Root = Root(head: Head, index: Tree, files: Tree)
  datatype Repo = Repo(objects: map<Commit, Object>, refs: map<Branch, Commit>, source: Root, worktree: Option<Root>)

  function Ref(g: Repo, b: Branch): (r: Option<Commit>) {
    if b in g.refs then Some(g.refs[b]) else None
  }

  function HeadCommit(g: Repo, r: Root): Option<Commit> {
    match r.head
    case OnBranch(b) => Ref(g, b)
    case Detached(c) => Some(c)
  }

  /** Nothing staged, nothing changed: index and files both equal the checked-out tree. */
  predicate Clean(g: Repo, r: Root) {
    var head := HeadCommit(g, r);
    head.Some? && head.value in g.objects && r.index == r.files == g.objects[head.value].tree
  }

  /** Commits are numbered in creation order, so a parent precedes its children. */
  predicate Acyclic(objects: map<Commit, Object>) {
    forall c | c in objects && objects[c].parent.Some? :: objects[c].parent.value < c && objects[c].parent.value in objects
  }

  predicate Ancestor(objects: map<Commit, Object>, a: Commit, c: Commit)
    decreases c
  {
    a == c ||
    (c in objects && objects[c].parent.Some? && objects[c].parent.value < c && Ancestor(objects, a, objects[c].parent.value))
  }

  /** What a writer outside the transaction may do between two of its steps:
      anything except touch the task reference or take objects away. */
  predicate OutsideMayChange(g: Repo, g': Repo) {
    && Ref(g', Task) == Ref(g, Task)
    && Acyclic(g'.objects)
    && forall c | c in g.objects :: c in g'.objects && g'.objects[c] == g.objects[c]
  }
}

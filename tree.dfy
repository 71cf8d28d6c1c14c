/**
 * A reference reading of a successful walk, built without any output: the
 * tree of file visits (one node per visit, so a file reached twice is two
 * nodes) and its post-order flattening. The walk writes exactly that
 * flattening: every file's included files first, in include-match order and
 * then walker order, then its own edges.
 */
module IncludeTree {
  import opened Options
  import opened Quotes
  import opened Project
  import opened Walk

  /** One visit: the file, the visits of the files it includes, and the edge lines of its own definitions. */
  datatype Tree = Node(path: Path, children: seq<Tree>, own: seq<string>)

  /** Post-order flattening of one visit. */
  function Lines(t: Tree): seq<string>
    decreases t
  {
    Concat(t.children) + t.own
  }

  /** Post-order flattening of a sequence of visits, left to right. */
  function Concat(ts: seq<Tree>): seq<string>
    decreases ts
  {
    if ts == [] then [] else Lines(ts[0]) + Concat(ts[1..])
  }

  lemma {:induction false} ConcatAppend(a: seq<Tree>, b: seq<Tree>)
    ensures Concat(a + b) == Concat(a) + Concat(b)
  {
    if a == [] {
      assert a + b == b;
    } else {
      assert (a + b)[0] == a[0];
      assert (a + b)[1..] == a[1..] + b;
      ConcatAppend(a[1..], b);
    }
  }

  /** The paths of a sequence of visits. */
  function PathsOf(ts: seq<Tree>): (r: seq<Path>)
    ensures |r| == |ts|
    ensures forall i :: 0 <= i < |ts| ==> r[i] == ts[i].path
  {
    seq(|ts|, i requires 0 <= i < |ts| => ts[i].path)
  }

  lemma PathsOfAppend(a: seq<Tree>, b: seq<Tree>)
    ensures PathsOf(a + b) == PathsOf(a) + PathsOf(b)
  {
    assert forall i :: 0 <= i < |a + b| ==> (a + b)[i].path == (PathsOf(a) + PathsOf(b))[i];
  }

  /** The visit tree of `p`, or `None` when the walk from `p` would not succeed. */
  function Build(pr: Project, p: Path, fuel: nat): Option<Tree>
    decreases fuel, 0
  {
    if fuel == 0 || p !in pr.files || pr.files[p].tree.None? then None
    else
      var info := pr.files[p];
      var syn := info.tree.value;
      match BuildIncludes(pr, info.parent, syn.includes, fuel - 1)
      case None => None
      case Some(cs) => Some(Node(p, cs, OwnLines(syn.defs)))
  }

  function BuildIncludes(pr: Project, parent: Option<Path>, lits: seq<string>, fuel: nat): Option<seq<Tree>>
    decreases fuel, 2, |lits|
  {
    if lits == [] then Some([])
    else
      match BuildInclude(pr, parent, lits[0], fuel)
      case None => None
      case Some(first) =>
        match BuildIncludes(pr, parent, lits[1..], fuel)
        case None => None
        case Some(rest) => Some(first + rest)
  }

  function BuildInclude(pr: Project, parent: Option<Path>, lit: string, fuel: nat): Option<seq<Tree>>
    decreases fuel, 2, 0
  {
    match parent
    case None => None
    case Some(base) =>
      match pr.glob(base, TrimQuotes(lit))
      case None => None
      case Some(entries) => BuildAll(pr, Paths(entries), fuel)
  }

  function BuildAll(pr: Project, ps: seq<Path>, fuel: nat): Option<seq<Tree>>
    decreases fuel, 1, |ps|
  {
    if ps == [] then Some([])
    else
      match Build(pr, ps[0], fuel)
      case None => None
      case Some(t) =>
        match BuildAll(pr, ps[1..], fuel)
        case None => None
        case Some(ts) => Some([t] + ts)
  }

  /**
   * The paths an include list resolves to, in include-match order and then
   * walker order, or `None` when some match has no base directory or a
   * pattern that does not build.
   */
  function Resolved(pr: Project, parent: Option<Path>, lits: seq<string>): Option<seq<Path>> {
    if lits == [] then Some([])
    else if parent.None? then None
    else
      match pr.glob(parent.value, TrimQuotes(lits[0]))
      case None => None
      case Some(entries) =>
        match Resolved(pr, parent, lits[1..])
        case None => None
        case Some(rest) => Some(Paths(entries) + rest)
  }

  // ---------------------------------------------------------------------------
  // The walk succeeds exactly when the tree exists, and then writes its
  // post-order flattening.

  lemma {:induction false} VisitIsPostOrder(pr: Project, p: Path, fuel: nat)
    ensures Visit(pr, p, fuel).status.Ok? <==> Build(pr, p, fuel).Some?
    ensures Build(pr, p, fuel).Some? ==> Visit(pr, p, fuel).lines == Lines(Build(pr, p, fuel).value)
    decreases fuel, 0
  {
    if fuel > 0 && p in pr.files && pr.files[p].tree.Some? {
      var info := pr.files[p];
      IncludesArePostOrder(pr, p, info.parent, info.tree.value.includes, fuel - 1);
    }
  }

  lemma {:induction false} IncludesArePostOrder(pr: Project, p: Path, parent: Option<Path>, lits: seq<string>, fuel: nat)
    ensures VisitIncludes(pr, p, parent, lits, fuel).status.Ok? <==> BuildIncludes(pr, parent, lits, fuel).Some?
    ensures BuildIncludes(pr, parent, lits, fuel).Some? ==>
      VisitIncludes(pr, p, parent, lits, fuel).lines == Concat(BuildIncludes(pr, parent, lits, fuel).value)
    decreases fuel, 2, |lits|
  {
    if lits != [] {
      IncludeIsPostOrder(pr, p, parent, lits[0], fuel);
      IncludesArePostOrder(pr, p, parent, lits[1..], fuel);
      var first := BuildInclude(pr, parent, lits[0], fuel);
      var rest := BuildIncludes(pr, parent, lits[1..], fuel);
      if first.Some? && rest.Some? {
        ConcatAppend(first.value, rest.value);
      }
    }
  }

  lemma {:induction false} IncludeIsPostOrder(pr: Project, p: Path, parent: Option<Path>, lit: string, fuel: nat)
    ensures Include(pr, p, parent, lit, fuel).status.Ok? <==> BuildInclude(pr, parent, lit, fuel).Some?
    ensures BuildInclude(pr, parent, lit, fuel).Some? ==>
      Include(pr, p, parent, lit, fuel).lines == Concat(BuildInclude(pr, parent, lit, fuel).value)
    decreases fuel, 2, 0
  {
    if parent.Some? && pr.glob(parent.value, TrimQuotes(lit)).Some? {
      AllArePostOrder(pr, Paths(pr.glob(parent.value, TrimQuotes(lit)).value), fuel);
    }
  }

  lemma {:induction false} AllArePostOrder(pr: Project, ps: seq<Path>, fuel: nat)
    ensures VisitAll(pr, ps, fuel).status.Ok? <==> BuildAll(pr, ps, fuel).Some?
    ensures BuildAll(pr, ps, fuel).Some? ==> VisitAll(pr, ps, fuel).lines == Concat(BuildAll(pr, ps, fuel).value)
    decreases fuel, 1, |ps|
  {
    if ps != [] {
      VisitIsPostOrder(pr, ps[0], fuel);
      AllArePostOrder(pr, ps[1..], fuel);
      var t := Build(pr, ps[0], fuel);
      var ts := BuildAll(pr, ps[1..], fuel);
      if t.Some? && ts.Some? {
        assert ([t.value] + ts.value)[0] == t.value;
        assert ([t.value] + ts.value)[1..] == ts.value;
      }
    }
  }

  // ---------------------------------------------------------------------------
  // The shape of the tree: a node is its file's visit, and its children are
  // the visits of exactly the paths its include matches resolve to, in order.

  lemma {:induction false} BuildShape(pr: Project, p: Path, fuel: nat)
    requires Build(pr, p, fuel).Some?
    ensures var t := Build(pr, p, fuel).value;
      fuel > 0 && t.path == p && p in pr.files && pr.files[p].tree.Some? &&
      t.own == OwnLines(pr.files[p].tree.value.defs) &&
      Resolved(pr, pr.files[p].parent, pr.files[p].tree.value.includes) == Some(PathsOf(t.children)) &&
      forall c :: c in t.children ==> Build(pr, c.path, fuel - 1) == Some(c)
    decreases fuel, 0
  {
    var info := pr.files[p];
    IncludesShape(pr, info.parent, info.tree.value.includes, fuel - 1);
  }

  lemma {:induction false} IncludesShape(pr: Project, parent: Option<Path>, lits: seq<string>, fuel: nat)
    requires BuildIncludes(pr, parent, lits, fuel).Some?
    ensures var cs := BuildIncludes(pr, parent, lits, fuel).value;
      Resolved(pr, parent, lits) == Some(PathsOf(cs)) &&
      forall c :: c in cs ==> Build(pr, c.path, fuel) == Some(c)
    decreases fuel, 2, |lits|
  {
    if lits != [] {
      var first := BuildInclude(pr, parent, lits[0], fuel).value;
      var rest := BuildIncludes(pr, parent, lits[1..], fuel).value;
      var ps := Paths(pr.glob(parent.value, TrimQuotes(lits[0])).value);
      AllShape(pr, ps, fuel);
      IncludesShape(pr, parent, lits[1..], fuel);
      PathsOfAppend(first, rest);
    }
  }

  lemma {:induction false} AllShape(pr: Project, ps: seq<Path>, fuel: nat)
    requires BuildAll(pr, ps, fuel).Some?
    ensures var ts := BuildAll(pr, ps, fuel).value;
      PathsOf(ts) == ps && forall c :: c in ts ==> Build(pr, c.path, fuel) == Some(c)
    decreases fuel, 1, |ps|
  {
    if ps != [] {
      var t := Build(pr, ps[0], fuel).value;
      var ts := BuildAll(pr, ps[1..], fuel).value;
      AllShape(pr, ps[1..], fuel);
      BuildShape(pr, ps[0], fuel);
      PathsOfAppend([t], ts);
    }
  }

  // ---------------------------------------------------------------------------
  // Post-order on the tree: each child's lines are one contiguous block,
  // blocks follow child order, and all of them come before the node's own.

  lemma ChildBlock(t: Tree, i: nat)
    requires i < |t.children|
    ensures var c := t.children[i];
      var k := |Concat(t.children[..i])|;
      k + |Lines(c)| <= |Lines(t)| - |t.own| &&
      Lines(t)[k..k + |Lines(c)|] == Lines(c)
  {
    var cs := t.children;
    assert cs == cs[..i] + ([cs[i]] + cs[i + 1..]);
    ConcatAppend(cs[..i], [cs[i]] + cs[i + 1..]);
    assert ([cs[i]] + cs[i + 1..])[1..] == cs[i + 1..];
  }

  /** Every child of a visit tree is the tree of a successful walk of its path, one level deeper. */
  lemma ChildrenAreWalks(pr: Project, p: Path, fuel: nat)
    requires Build(pr, p, fuel).Some?
    ensures fuel > 0
    ensures forall c :: c in Build(pr, p, fuel).value.children ==> Visit(pr, c.path, fuel - 1) == Run(Lines(c), Ok)
  {
    BuildShape(pr, p, fuel);
    forall c | c in Build(pr, p, fuel).value.children
      ensures Visit(pr, c.path, fuel - 1) == Run(Lines(c), Ok)
    {
      VisitIsPostOrder(pr, c.path, fuel - 1);
    }
  }

  /**
   * Post-order emission of the walk itself: after a successful walk of `p`,
   * each path one of its include matches resolves to (in include-match order,
   * then walker order, repeats included) was walked in full, and wrote its
   * lines as one block, in that order, before the lines of `p`'s own
   * definitions, which close the output.
   */
  lemma IncludedLinesPrecedeOwnLines(pr: Project, p: Path, fuel: nat)
    requires Visit(pr, p, fuel).status.Ok?
    ensures Build(pr, p, fuel).Some? && p in pr.files && pr.files[p].tree.Some?
    ensures var t := Build(pr, p, fuel).value;
      var syn := pr.files[p].tree.value;
      Visit(pr, p, fuel).lines == Lines(t) &&
      Resolved(pr, pr.files[p].parent, syn.includes) == Some(PathsOf(t.children)) &&
      |OwnLines(syn.defs)| <= |Lines(t)| && Lines(t)[|Lines(t)| - |OwnLines(syn.defs)|..] == OwnLines(syn.defs) &&
      forall i :: 0 <= i < |t.children| ==>
        Visit(pr, t.children[i].path, fuel - 1) == Run(Lines(t.children[i]), Ok) &&
        |Concat(t.children[..i])| + |Lines(t.children[i])| <= |Lines(t)| - |t.own| &&
        Lines(t)[|Concat(t.children[..i])|..|Concat(t.children[..i])| + |Lines(t.children[i])|] == Lines(t.children[i])
  {
    VisitIsPostOrder(pr, p, fuel);
    BuildShape(pr, p, fuel);
    ChildrenAreWalks(pr, p, fuel);
    var t := Build(pr, p, fuel).value;
    assert Lines(t) == Concat(t.children) + t.own;
    forall i | 0 <= i < |t.children|
      ensures Visit(pr, t.children[i].path, fuel - 1) == Run(Lines(t.children[i]), Ok)
      ensures |Concat(t.children[..i])| + |Lines(t.children[i])| <= |Lines(t)| - |t.own|
      ensures Lines(t)[|Concat(t.children[..i])|..|Concat(t.children[..i])| + |Lines(t.children[i])|] == Lines(t.children[i])
    {
      assert t.children[i] in t.children;
      ChildBlock(t, i);
    }
  }
}

/**
 * The recursive include-then-emit walk of `App::parse_real` and the document
 * `App::parse` wraps around it, as functions from a project to the lines
 * written and the way the walk ended.
 *
 * The source has no cycle guard and no visited set, so a file that includes
 * itself recurses until the stack overflows. The functions take a `fuel`
 * argument bounding the include nesting depth; running out of it yields the
 * status `Exhausted`, which stands for that unbounded recursion and is not an
 * error the program reports. Lemmas below show that fuel never changes a
 * result once it suffices and always suffices on an acyclic project.
 */
module Walk {
  import opened Options
  import opened Quotes
  import opened Dot
  import opened Project

  /** The fatal errors the walk propagates with `?`. */
  datatype Error =
    | ReadFailed(path: Path)                  // `read_to_string` failed
    | ParseFailed(path: Path)                 // the parser returned no tree
    | NoParent(path: Path)                    // `proj.parent()` was `None`
    | BadPattern(base: Path, pattern: string) // building the glob walker failed

  datatype Status = Ok | Failed(error: Error) | Exhausted

  /** What one stretch of the walk wrote to the sink, and how it ended. */
  datatype Run = Run(lines: seq<string>, status: Status)

  /** Runs `first`, then `rest` only if `first` succeeded; lines written by a failing stretch stay written. */
  function Then(first: Run, rest: Run): Run {
    if first.status.Ok? then Run(first.lines + rest.lines, rest.status) else first
  }

  /** `parse_real(p)`: read and parse `p`, walk its includes, then write its own edges. */
  function Visit(pr: Project, p: Path, fuel: nat): Run
    decreases fuel, 0
  {
    if fuel == 0 then Run([], Exhausted)
    else if p !in pr.files then Run([], Failed(ReadFailed(p)))
    else
      var info := pr.files[p];
      match info.tree
      case None => Run([], Failed(ParseFailed(p)))
      case Some(syn) =>
        Then(VisitIncludes(pr, p, info.parent, syn.includes, fuel - 1), Run(OwnLines(syn.defs), Ok))
  }

  /** The include loop: each include match in order, each fully walked before the next. */
  function VisitIncludes(pr: Project, p: Path, parent: Option<Path>, lits: seq<string>, fuel: nat): Run
    decreases fuel, 2, |lits|
  {
    if lits == [] then Run([], Ok)
    else Then(Include(pr, p, parent, lits[0], fuel), VisitIncludes(pr, p, parent, lits[1..], fuel))
  }

  /**
   * One include match: trim the quotes, take the parent directory as the
   * base (failing when there is none), build the walker (failing when that
   * fails), then walk every path it yields.
   */
  function Include(pr: Project, p: Path, parent: Option<Path>, lit: string, fuel: nat): Run
    decreases fuel, 2, 0
  {
    var pattern := TrimQuotes(lit);
    match parent
    case None => Run([], Failed(NoParent(p)))
    case Some(base) =>
      match pr.glob(base, pattern)
      case None => Run([], Failed(BadPattern(base, pattern)))
      case Some(entries) => VisitAll(pr, Paths(entries), fuel)
  }

  /** The inner `for proj in walker` loop: each path walked in turn, stopping at the first failure. */
  function VisitAll(pr: Project, ps: seq<Path>, fuel: nat): Run
    decreases fuel, 1, |ps|
  {
    if ps == [] then Run([], Ok)
    else Then(Visit(pr, ps[0], fuel), VisitAll(pr, ps[1..], fuel))
  }

  /** `parse(root)`: the header, the walk, and the footer only when the walk succeeded. */
  function Document(pr: Project, root: Path, fuel: nat): Run {
    var v := Visit(pr, root, fuel);
    Run(Header + v.lines + (if v.status.Ok? then [Footer] else []), v.status)
  }

  // ---------------------------------------------------------------------------
  // Every line the walk writes is an edge of a file the walk can reach.

  /** `r` is one of the paths the include literal `lit` resolves to from the base directory `parent`. */
  ghost predicate ResolvesTo(pr: Project, parent: Option<Path>, lit: string, r: Path) {
    parent.Some? &&
    var found := pr.glob(parent.value, TrimQuotes(lit));
    found.Some? && r in Paths(found.value)
  }

  /** `q` is one of the paths some include match of `p` resolves to. */
  ghost predicate IncludesPath(pr: Project, p: Path, q: Path) {
    p in pr.files && pr.files[p].tree.Some? &&
    exists lit :: lit in pr.files[p].tree.value.includes && ResolvesTo(pr, pr.files[p].parent, lit, q)
  }

  /** `q` is `p`, or is reached from `p` through at most `n` include steps. */
  ghost predicate Reaches(pr: Project, p: Path, q: Path, n: nat)
    decreases n
  {
    q == p || (n > 0 && exists r :: IncludesPath(pr, p, r) && Reaches(pr, r, q, n - 1))
  }

  /** `l` is an own edge line of the parsed file `q`. */
  ghost predicate Owns(pr: Project, q: Path, l: string) {
    q in pr.files && pr.files[q].tree.Some? && l in OwnLines(pr.files[q].tree.value.defs)
  }

  /** `l` is an own edge line of a parsed file reached from `p` within `n` include steps. */
  ghost predicate EmittedWithin(pr: Project, p: Path, l: string, n: nat) {
    exists q :: Reaches(pr, p, q, n) && Owns(pr, q, l)
  }

  lemma {:induction false} VisitEmits(pr: Project, p: Path, fuel: nat)
    ensures forall l :: l in Visit(pr, p, fuel).lines ==> EmittedWithin(pr, p, l, fuel)
    decreases fuel, 0
  {
    if fuel > 0 && p in pr.files && pr.files[p].tree.Some? {
      var info := pr.files[p];
      var lits := info.tree.value.includes;
      IncludesEmit(pr, p, info.parent, lits, fuel - 1);
      forall l | l in Visit(pr, p, fuel).lines ensures EmittedWithin(pr, p, l, fuel) {
        if l in VisitIncludes(pr, p, info.parent, lits, fuel - 1).lines {
          var lit, r :| lit in lits && ResolvesTo(pr, info.parent, lit, r) && EmittedWithin(pr, r, l, fuel - 1);
          assert IncludesPath(pr, p, r);
          var q :| Reaches(pr, r, q, fuel - 1) && Owns(pr, q, l);
          assert Reaches(pr, p, q, fuel);
        } else {
          assert Reaches(pr, p, p, fuel) && Owns(pr, p, l);
        }
      }
    }
  }

  lemma {:induction false} IncludesEmit(pr: Project, p: Path, parent: Option<Path>, lits: seq<string>, fuel: nat)
    ensures forall l :: l in VisitIncludes(pr, p, parent, lits, fuel).lines ==>
      exists lit, r :: lit in lits && ResolvesTo(pr, parent, lit, r) && EmittedWithin(pr, r, l, fuel)
    decreases fuel, 2, |lits|
  {
    if lits != [] {
      IncludeEmits(pr, p, parent, lits[0], fuel);
      IncludesEmit(pr, p, parent, lits[1..], fuel);
      forall l | l in VisitIncludes(pr, p, parent, lits, fuel).lines
        ensures exists lit, r :: lit in lits && ResolvesTo(pr, parent, lit, r) && EmittedWithin(pr, r, l, fuel)
      {
        if l in Include(pr, p, parent, lits[0], fuel).lines {
          var r :| ResolvesTo(pr, parent, lits[0], r) && EmittedWithin(pr, r, l, fuel);
          assert lits[0] in lits;
        } else {
          var lit, r :| lit in lits[1..] && ResolvesTo(pr, parent, lit, r) && EmittedWithin(pr, r, l, fuel);
          assert lit in lits;
        }
      }
    }
  }

  lemma {:induction false} IncludeEmits(pr: Project, p: Path, parent: Option<Path>, lit: string, fuel: nat)
    ensures forall l :: l in Include(pr, p, parent, lit, fuel).lines ==>
      exists r :: ResolvesTo(pr, parent, lit, r) && EmittedWithin(pr, r, l, fuel)
    decreases fuel, 2, 0
  {
    if parent.Some? && pr.glob(parent.value, TrimQuotes(lit)).Some? {
      AllEmit(pr, Paths(pr.glob(parent.value, TrimQuotes(lit)).value), fuel);
    }
  }

  lemma {:induction false} AllEmit(pr: Project, ps: seq<Path>, fuel: nat)
    ensures forall l :: l in VisitAll(pr, ps, fuel).lines ==> exists r :: r in ps && EmittedWithin(pr, r, l, fuel)
    decreases fuel, 1, |ps|
  {
    if ps != [] {
      VisitEmits(pr, ps[0], fuel);
      AllEmit(pr, ps[1..], fuel);
      forall l | l in VisitAll(pr, ps, fuel).lines ensures exists r :: r in ps && EmittedWithin(pr, r, l, fuel) {
        if l in Visit(pr, ps[0], fuel).lines {
          assert ps[0] in ps;
        } else {
          var r :| r in ps[1..] && EmittedWithin(pr, r, l, fuel);
          assert r in ps;
        }
      }
    }
  }

  /**
   * Every line the walk writes, even one written before a later failure, is
   * the edge from a definition's name to a use inside that definition, in a
   * parsed file reached from `p` within the depth bound.
   */
  lemma VisitLinesAreUses(pr: Project, p: Path, fuel: nat, l: string)
    requires l in Visit(pr, p, fuel).lines
    ensures exists q, i, j ::
      Reaches(pr, p, q, fuel) && q in pr.files && pr.files[q].tree.Some? &&
      var defs := pr.files[q].tree.value.defs;
      0 <= i < |defs| && 0 <= j < |defs[i].uses| && l == EdgeLine(defs[i].name, defs[i].uses[j])
  {
    VisitEmits(pr, p, fuel);
    var q :| Reaches(pr, p, q, fuel) && Owns(pr, q, l);
    OwnLinesMember(pr.files[q].tree.value.defs, l);
  }

  // ---------------------------------------------------------------------------
  // Fuel is only a depth bound: once a run does not exhaust it, more fuel
  // changes nothing.

  lemma {:induction false} VisitFuel(pr: Project, p: Path, f: nat, g: nat)
    requires f <= g && !Visit(pr, p, f).status.Exhausted?
    ensures Visit(pr, p, g) == Visit(pr, p, f)
    decreases f, 0
  {
    if p in pr.files && pr.files[p].tree.Some? {
      var info := pr.files[p];
      IncludesFuel(pr, p, info.parent, info.tree.value.includes, f - 1, g - 1);
    }
  }

  lemma {:induction false} IncludesFuel(pr: Project, p: Path, parent: Option<Path>, lits: seq<string>, f: nat, g: nat)
    requires f <= g && !VisitIncludes(pr, p, parent, lits, f).status.Exhausted?
    ensures VisitIncludes(pr, p, parent, lits, g) == VisitIncludes(pr, p, parent, lits, f)
    decreases f, 2, |lits|
  {
    if lits != [] {
      IncludeFuel(pr, p, parent, lits[0], f, g);
      if Include(pr, p, parent, lits[0], f).status.Ok? {
        IncludesFuel(pr, p, parent, lits[1..], f, g);
      }
    }
  }

  lemma {:induction false} IncludeFuel(pr: Project, p: Path, parent: Option<Path>, lit: string, f: nat, g: nat)
    requires f <= g && !Include(pr, p, parent, lit, f).status.Exhausted?
    ensures Include(pr, p, parent, lit, g) == Include(pr, p, parent, lit, f)
    decreases f, 2, 0
  {
    if parent.Some? && pr.glob(parent.value, TrimQuotes(lit)).Some? {
      AllFuel(pr, Paths(pr.glob(parent.value, TrimQuotes(lit)).value), f, g);
    }
  }

  lemma {:induction false} AllFuel(pr: Project, ps: seq<Path>, f: nat, g: nat)
    requires f <= g && !VisitAll(pr, ps, f).status.Exhausted?
    ensures VisitAll(pr, ps, g) == VisitAll(pr, ps, f)
    decreases f, 1, |ps|
  {
    if ps != [] {
      VisitFuel(pr, ps[0], f, g);
      if Visit(pr, ps[0], f).status.Ok? {
        AllFuel(pr, ps[1..], f, g);
      }
    }
  }

  // ---------------------------------------------------------------------------
  // On an acyclic project enough fuel always suffices.

  /** `rank` strictly decreases along every include edge, so the include relation has no cycle. */
  ghost predicate Ranked(pr: Project, rank: Path -> nat) {
    forall p, q :: IncludesPath(pr, p, q) ==> rank(q) < rank(p)
  }

  lemma {:induction false} VisitFinishes(pr: Project, rank: Path -> nat, p: Path, fuel: nat)
    requires Ranked(pr, rank) && rank(p) < fuel
    ensures !Visit(pr, p, fuel).status.Exhausted?
    decreases fuel, 0
  {
    if p in pr.files && pr.files[p].tree.Some? {
      var info := pr.files[p];
      IncludesFinish(pr, rank, p, info.tree.value.includes, fuel - 1);
    }
  }

  lemma {:induction false} IncludesFinish(pr: Project, rank: Path -> nat, p: Path, lits: seq<string>, fuel: nat)
    requires Ranked(pr, rank) && rank(p) <= fuel
    requires p in pr.files && pr.files[p].tree.Some?
    requires forall lit :: lit in lits ==> lit in pr.files[p].tree.value.includes
    ensures !VisitIncludes(pr, p, pr.files[p].parent, lits, fuel).status.Exhausted?
    decreases fuel, 2, |lits|
  {
    if lits != [] {
      var parent := pr.files[p].parent;
      if parent.Some? && pr.glob(parent.value, TrimQuotes(lits[0])).Some? {
        var ps := Paths(pr.glob(parent.value, TrimQuotes(lits[0])).value);
        forall q | q in ps ensures rank(q) < fuel {
          assert lits[0] in pr.files[p].tree.value.includes && ResolvesTo(pr, parent, lits[0], q);
          assert IncludesPath(pr, p, q);
        }
        AllFinish(pr, rank, ps, fuel);
      }
      IncludesFinish(pr, rank, p, lits[1..], fuel);
    }
  }

  lemma {:induction false} AllFinish(pr: Project, rank: Path -> nat, ps: seq<Path>, fuel: nat)
    requires Ranked(pr, rank)
    requires forall q :: q in ps ==> rank(q) < fuel
    ensures !VisitAll(pr, ps, fuel).status.Exhausted?
    decreases fuel, 1, |ps|
  {
    if ps != [] {
      VisitFinishes(pr, rank, ps[0], fuel);
      AllFinish(pr, rank, ps[1..], fuel);
    }
  }

  /**
   * No cycle guard: a file whose first include match resolves first to the
   * file itself never finishes, for any depth, and writes nothing.
   */
  lemma {:induction false} SelfIncludeNeverFinishes(pr: Project, p: Path, fuel: nat)
    requires p in pr.files && pr.files[p].tree.Some? && pr.files[p].parent.Some?
    requires var syn := pr.files[p].tree.value;
      syn.includes != [] &&
      var found := pr.glob(pr.files[p].parent.value, TrimQuotes(syn.includes[0]));
      found.Some? && Paths(found.value) != [] && Paths(found.value)[0] == p
    ensures Visit(pr, p, fuel) == Run([], Exhausted)
  {
    if fuel > 0 {
      var info := pr.files[p];
      var lits := info.tree.value.includes;
      var ps := Paths(pr.glob(info.parent.value, TrimQuotes(lits[0])).value);
      SelfIncludeNeverFinishes(pr, p, fuel - 1);
      assert VisitAll(pr, ps, fuel - 1) == Run([], Exhausted);
      assert Include(pr, p, info.parent, lits[0], fuel - 1) == Run([], Exhausted);
      assert VisitIncludes(pr, p, info.parent, lits, fuel - 1) == Run([], Exhausted);
    }
  }

  // ---------------------------------------------------------------------------
  // Sequencing: splitting a path list, aborting, and repeating.

  /** One step of the inner loop: the first path is walked, then, if it succeeded, the rest. */
  lemma VisitAllCons(pr: Project, q: Path, rest: seq<Path>, fuel: nat)
    ensures VisitAll(pr, [q] + rest, fuel) == Then(Visit(pr, q, fuel), VisitAll(pr, rest, fuel))
  {
    assert ([q] + rest)[0] == q && ([q] + rest)[1..] == rest;
  }

  /** One step of the include loop: the `i`-th match is handled, then the ones after it. */
  lemma VisitIncludesAt(pr: Project, p: Path, parent: Option<Path>, lits: seq<string>, i: nat, fuel: nat)
    requires i < |lits|
    ensures VisitIncludes(pr, p, parent, lits[i..], fuel) ==
      Then(Include(pr, p, parent, lits[i], fuel), VisitIncludes(pr, p, parent, lits[i + 1..], fuel))
  {
    assert lits[i..][0] == lits[i] && lits[i..][1..] == lits[i + 1..];
  }

  /** A found path in the walker's output is walked, then the entries after it. */
  lemma VisitFoundEntry(pr: Project, entries: seq<Entry>, j: nat, fuel: nat)
    requires j < |entries| && entries[j].Found?
    ensures VisitAll(pr, Paths(entries[j..]), fuel) ==
      Then(Visit(pr, entries[j].path, fuel), VisitAll(pr, Paths(entries[j + 1..]), fuel))
  {
    assert entries[j..] == [entries[j]] + entries[j + 1..];
    PathsAppend([entries[j]], entries[j + 1..]);
    VisitAllCons(pr, entries[j].path, Paths(entries[j + 1..]), fuel);
  }

  /** A failed entry in the walker's output is skipped. */
  lemma SkipFailedEntry(pr: Project, entries: seq<Entry>, j: nat, fuel: nat)
    requires j < |entries| && entries[j].EntryError?
    ensures VisitAll(pr, Paths(entries[j..]), fuel) == VisitAll(pr, Paths(entries[j + 1..]), fuel)
  {
    assert entries[j..] == [entries[j]] + entries[j + 1..];
    PathsAppend([entries[j]], entries[j + 1..]);
  }

  /** An include match that succeeded is followed by the matches after it. */
  lemma IncludesStepOk(pr: Project, p: Path, parent: Option<Path>, lits: seq<string>, i: nat, fuel: nat)
    requires i < |lits| && Include(pr, p, parent, lits[i], fuel).status.Ok?
    ensures VisitIncludes(pr, p, parent, lits[i..], fuel).lines ==
      Include(pr, p, parent, lits[i], fuel).lines + VisitIncludes(pr, p, parent, lits[i + 1..], fuel).lines
    ensures VisitIncludes(pr, p, parent, lits[i..], fuel).status == VisitIncludes(pr, p, parent, lits[i + 1..], fuel).status
  {
    VisitIncludesAt(pr, p, parent, lits, i, fuel);
  }

  /** An include match that failed ends the include loop with its own outcome. */
  lemma IncludesStepFailed(pr: Project, p: Path, parent: Option<Path>, lits: seq<string>, i: nat, fuel: nat)
    requires i < |lits| && !Include(pr, p, parent, lits[i], fuel).status.Ok?
    ensures VisitIncludes(pr, p, parent, lits[i..], fuel) == Include(pr, p, parent, lits[i], fuel)
  {
    VisitIncludesAt(pr, p, parent, lits, i, fuel);
  }

  /** What one entry of the glob walker contributes: the walk of a found path, nothing for a failed entry. */
  function EntryRun(pr: Project, e: Entry, fuel: nat): Run {
    if e.Found? then Visit(pr, e.path, fuel) else Run([], Ok)
  }

  /** One step of the inner loop over the walker's entries. */
  lemma EntryStep(pr: Project, entries: seq<Entry>, j: nat, fuel: nat)
    requires j < |entries|
    ensures VisitAll(pr, Paths(entries[j..]), fuel) == Then(EntryRun(pr, entries[j], fuel), VisitAll(pr, Paths(entries[j + 1..]), fuel))
  {
    if entries[j].Found? {
      VisitFoundEntry(pr, entries, j, fuel);
    } else {
      SkipFailedEntry(pr, entries, j, fuel);
    }
  }

  /** A stretch that succeeded is followed by the next one. */
  lemma ThenOk(a: Run, b: Run)
    requires a.status.Ok?
    ensures Then(a, b) == Run(a.lines + b.lines, b.status)
  {
  }

  /** A stretch that failed ends the walk. */
  lemma ThenFailed(a: Run, b: Run)
    requires !a.status.Ok?
    ensures Then(a, b) == a
  {
  }

  /** `Then` is associative, so stretches of the walk can be regrouped. */
  lemma ThenAssoc(a: Run, b: Run, c: Run)
    ensures Then(Then(a, b), c) == Then(a, Then(b, c))
  {
  }

  /** Walking `ps + qs` is walking `ps`, then, only if that succeeded, `qs`. */
  lemma {:induction false} VisitAllAppend(pr: Project, ps: seq<Path>, qs: seq<Path>, fuel: nat)
    ensures VisitAll(pr, ps + qs, fuel) == Then(VisitAll(pr, ps, fuel), VisitAll(pr, qs, fuel))
    decreases |ps|
  {
    if ps == [] {
      assert ps + qs == qs;
    } else {
      assert (ps + qs)[0] == ps[0];
      assert (ps + qs)[1..] == ps[1..] + qs;
      VisitAllAppend(pr, ps[1..], qs, fuel);
      ThenAssoc(Visit(pr, ps[0], fuel), VisitAll(pr, ps[1..], fuel), VisitAll(pr, qs, fuel));
    }
  }

  /**
   * A failure aborts the rest of the loop: paths after it are never visited,
   * and the lines written before it stay in the sink.
   */
  lemma FailureAborts(pr: Project, ps: seq<Path>, qs: seq<Path>, fuel: nat)
    requires !VisitAll(pr, ps, fuel).status.Ok?
    ensures VisitAll(pr, ps + qs, fuel) == VisitAll(pr, ps, fuel)
  {
    VisitAllAppend(pr, ps, qs, fuel);
  }

  /** Running the include matches `a + b` is running `a`, then, only if that succeeded, `b`. */
  lemma {:induction false} VisitIncludesAppend(pr: Project, p: Path, parent: Option<Path>, a: seq<string>, b: seq<string>, fuel: nat)
    ensures VisitIncludes(pr, p, parent, a + b, fuel) ==
      Then(VisitIncludes(pr, p, parent, a, fuel), VisitIncludes(pr, p, parent, b, fuel))
    decreases |a|
  {
    if a == [] {
      assert a + b == b;
    } else {
      assert (a + b)[0] == a[0];
      assert (a + b)[1..] == a[1..] + b;
      VisitIncludesAppend(pr, p, parent, a[1..], b, fuel);
      ThenAssoc(Include(pr, p, parent, a[0], fuel), VisitIncludes(pr, p, parent, a[1..], fuel), VisitIncludes(pr, p, parent, b, fuel));
    }
  }

  /**
   * Errors propagate unchanged: when include match `i` of `p` resolves to
   * the paths `ps`, every earlier include match and every path before
   * `ps[j]` succeeded, and the walk of `ps[j]` fails, then the walk of `p`
   * fails with that same outcome. It has written the lines of the earlier
   * matches, then those of the earlier paths, then those of the failed walk,
   * and none of `p`'s own edges.
   */
  lemma NestedFailurePropagates(pr: Project, p: Path, fuel: nat, i: nat, base: Path, ps: seq<Path>, j: nat)
    requires fuel > 0 && p in pr.files && pr.files[p].tree.Some? && pr.files[p].parent == Some(base)
    requires i < |pr.files[p].tree.value.includes|
    requires var found := pr.glob(base, TrimQuotes(pr.files[p].tree.value.includes[i]));
      found.Some? && Paths(found.value) == ps
    requires j < |ps|
    requires VisitIncludes(pr, p, Some(base), pr.files[p].tree.value.includes[..i], fuel - 1).status.Ok?
    requires VisitAll(pr, ps[..j], fuel - 1).status.Ok?
    requires !Visit(pr, ps[j], fuel - 1).status.Ok?
    ensures Visit(pr, p, fuel).status == Visit(pr, ps[j], fuel - 1).status
    ensures Visit(pr, p, fuel).lines ==
      VisitIncludes(pr, p, Some(base), pr.files[p].tree.value.includes[..i], fuel - 1).lines +
      VisitAll(pr, ps[..j], fuel - 1).lines + Visit(pr, ps[j], fuel - 1).lines
  {
    var lits := pr.files[p].tree.value.includes;
    var parent := Some(base);
    WalkerFailsAt(pr, ps, j, fuel - 1);
    assert Include(pr, p, parent, lits[i], fuel - 1) == VisitAll(pr, ps, fuel - 1);
    IncludesFailAt(pr, p, parent, lits, i, fuel - 1);
    var earlier := VisitIncludes(pr, p, parent, lits[..i], fuel - 1).lines;
    var before := VisitAll(pr, ps[..j], fuel - 1).lines;
    var nested := Visit(pr, ps[j], fuel - 1).lines;
    assert earlier + (before + nested) == earlier + before + nested;
  }

  /** The walk of a path list whose first failing path is `ps[j]` ends with that failure, after the earlier paths' lines. */
  lemma WalkerFailsAt(pr: Project, ps: seq<Path>, j: nat, fuel: nat)
    requires j < |ps| && VisitAll(pr, ps[..j], fuel).status.Ok? && !Visit(pr, ps[j], fuel).status.Ok?
    ensures VisitAll(pr, ps, fuel) ==
      Run(VisitAll(pr, ps[..j], fuel).lines + Visit(pr, ps[j], fuel).lines, Visit(pr, ps[j], fuel).status)
  {
    assert ps == ps[..j] + ([ps[j]] + ps[j + 1..]);
    VisitAllAppend(pr, ps[..j], [ps[j]] + ps[j + 1..], fuel);
    VisitAllCons(pr, ps[j], ps[j + 1..], fuel);
  }

  /** The include loop whose first failing match is `lits[i]` ends with that failure, after the earlier matches' lines. */
  lemma IncludesFailAt(pr: Project, p: Path, parent: Option<Path>, lits: seq<string>, i: nat, fuel: nat)
    requires i < |lits| && VisitIncludes(pr, p, parent, lits[..i], fuel).status.Ok?
    requires !Include(pr, p, parent, lits[i], fuel).status.Ok?
    ensures VisitIncludes(pr, p, parent, lits, fuel) ==
      Run(VisitIncludes(pr, p, parent, lits[..i], fuel).lines + Include(pr, p, parent, lits[i], fuel).lines,
          Include(pr, p, parent, lits[i], fuel).status)
  {
    VisitIncludesAt(pr, p, parent, lits, i, fuel);
    assert lits == lits[..i] + lits[i..];
    VisitIncludesAppend(pr, p, parent, lits[..i], lits[i..], fuel);
  }

  /** A successful include loop ran every one of its include matches successfully. */
  lemma {:induction false} IncludesOkEach(pr: Project, p: Path, parent: Option<Path>, lits: seq<string>, fuel: nat, k: nat)
    requires VisitIncludes(pr, p, parent, lits, fuel).status.Ok? && k < |lits|
    ensures Include(pr, p, parent, lits[k], fuel).status.Ok?
    decreases k
  {
    if k > 0 {
      IncludesOkEach(pr, p, parent, lits[1..], fuel, k - 1);
    }
  }

  /** A successful walk of a path list walked every one of its paths successfully. */
  lemma {:induction false} AllOkEach(pr: Project, ps: seq<Path>, fuel: nat, k: nat)
    requires VisitAll(pr, ps, fuel).status.Ok? && k < |ps|
    ensures Visit(pr, ps[k], fuel).status.Ok?
    decreases k
  {
    if k > 0 {
      AllOkEach(pr, ps[1..], fuel, k - 1);
    }
  }

  /**
   * No cycle guard: a file one of whose include matches resolves to the
   * file itself never succeeds, whatever the depth bound; it either fails or
   * recurses until the bound runs out.
   */
  lemma {:induction false} SelfIncludeNeverSucceeds(pr: Project, p: Path, fuel: nat)
    requires IncludesPath(pr, p, p)
    ensures !Visit(pr, p, fuel).status.Ok?
  {
    if fuel > 0 && Visit(pr, p, fuel).status.Ok? {
      var info := pr.files[p];
      var lits := info.tree.value.includes;
      var lit :| lit in lits && ResolvesTo(pr, info.parent, lit, p);
      var k :| 0 <= k < |lits| && lits[k] == lit;
      IncludesOkEach(pr, p, info.parent, lits, fuel - 1, k);
      var ps := Paths(pr.glob(info.parent.value, TrimQuotes(lit)).value);
      var m :| 0 <= m < |ps| && ps[m] == p;
      AllOkEach(pr, ps, fuel - 1, m);
      SelfIncludeNeverSucceeds(pr, p, fuel - 1);
    }
  }

  /**
   * No de-duplication: when the same paths are reached twice (as through a
   * diamond of includes), their lines are written twice.
   */
  lemma NoDeduplication(pr: Project, ps: seq<Path>, fuel: nat)
    requires VisitAll(pr, ps, fuel).status.Ok?
    ensures VisitAll(pr, ps + ps, fuel) == Run(VisitAll(pr, ps, fuel).lines + VisitAll(pr, ps, fuel).lines, Ok)
  {
    VisitAllAppend(pr, ps, ps, fuel);
  }

  /** A pattern whose walker yields no readable entry adds no lines and does not fail. */
  lemma EntryErrorsSkipped(pr: Project, p: Path, base: Path, lit: string, fuel: nat)
    requires pr.glob(base, TrimQuotes(lit)).Some?
    requires forall e :: e in pr.glob(base, TrimQuotes(lit)).value ==> e.EntryError?
    ensures Include(pr, p, Some(base), lit, fuel) == Run([], Ok)
  {
    PathsOfErrors(pr.glob(base, TrimQuotes(lit)).value);
  }

  /**
   * A missing parent directory is checked inside the include loop, so it is
   * an error exactly when the file has at least one include match.
   */
  lemma NoParentFailsOnlyWithIncludes(pr: Project, p: Path, fuel: nat)
    requires fuel > 0 && p in pr.files && pr.files[p].parent.None? && pr.files[p].tree.Some?
    ensures var syn := pr.files[p].tree.value;
      Visit(pr, p, fuel) ==
        if syn.includes == [] then Run(OwnLines(syn.defs), Ok) else Run([], Failed(NoParent(p)))
  {
    var lits := pr.files[p].tree.value.includes;
    if lits != [] {
      assert Include(pr, p, None, lits[0], fuel - 1) == Run([], Failed(NoParent(p)));
    }
  }

  // ---------------------------------------------------------------------------
  // The document.

  /**
   * After a successful walk the document is the two header lines, the edge
   * lines, and the footer; header and footer lines occur exactly once.
   */
  lemma DocumentFramed(pr: Project, root: Path, fuel: nat)
    requires Visit(pr, root, fuel).status.Ok?
    ensures var d := Document(pr, root, fuel).lines;
      |d| >= 3 && d[..2] == Header && d[|d| - 1] == Footer &&
      d == Header + Visit(pr, root, fuel).lines + [Footer] &&
      multiset(d)[Header[0]] == 1 && multiset(d)[Header[1]] == 1 && multiset(d)[Footer] == 1 &&
      forall i :: 2 <= i < |d| - 1 ==> EmittedWithin(pr, root, d[i], fuel)
  {
    var body := Visit(pr, root, fuel).lines;
    var d := Document(pr, root, fuel).lines;
    BodyHasNoFrame(pr, root, fuel);
    assert multiset(d) == multiset(Header) + multiset(body) + multiset([Footer]);
    VisitEmits(pr, root, fuel);
    forall i | 2 <= i < |d| - 1 ensures EmittedWithin(pr, root, d[i], fuel) {
      assert d[i] == body[i - 2];
    }
  }

  /** After a failed walk the document is the header and the lines written before the failure, with no footer. */
  lemma DocumentOnFailure(pr: Project, root: Path, fuel: nat)
    requires !Visit(pr, root, fuel).status.Ok?
    ensures Document(pr, root, fuel).lines == Header + Visit(pr, root, fuel).lines
    ensures Footer !in Document(pr, root, fuel).lines
  {
    BodyHasNoFrame(pr, root, fuel);
    assert Footer !in Header;
  }

  lemma BodyHasNoFrame(pr: Project, root: Path, fuel: nat)
    ensures var body := Visit(pr, root, fuel).lines;
      Header[0] !in body && Header[1] !in body && Footer !in body
  {
    var body := Visit(pr, root, fuel).lines;
    forall l | l in body ensures l != Header[0] && l != Header[1] && l != Footer {
      VisitLinesAreUses(pr, root, fuel, l);
      var q, i, j :| Reaches(pr, root, q, fuel) && q in pr.files && pr.files[q].tree.Some? &&
        var defs := pr.files[q].tree.value.defs;
        0 <= i < |defs| && 0 <= j < |defs[i].uses| && l == EdgeLine(defs[i].name, defs[i].uses[j]);
      var defs := pr.files[q].tree.value.defs;
      EdgeLineIsNotFrame(defs[i].name, defs[i].uses[j]);
    }
  }
}

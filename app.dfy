/**
 * The `App` object: it owns the output file, models the include walk
 * `parse_real` as a recursive method that appends lines to that file step by
 * step, and `parse` as the method that frames the walk with the header and
 * footer. Each method is proved to write exactly what the functions of
 * `Walk` describe.
 */
module Application {
  import opened Options
  import opened Quotes
  import opened Dot
  import opened Project
  import opened Walk

  class App {
    /** The output file: every line written to it so far, in order. */
    var out: seq<string>

    /** `App::new`: the output file is created (or truncated) empty. */
    constructor ()
      ensures out == []
    {
      out := [];
    }

    /** `writeln!` onto the output file. */
    method WriteLine(line: string)
      modifies this
      ensures out == old(out) + [line]
    {
      out := out + [line];
    }

    /**
     * `parse_real(p)` with at most `fuel` levels of include nesting: walks
     * every include match in order, recursing into each path the walker
     * yields, then writes one edge line per (definition, use) pair. On a
     * failure it stops at once; what it already wrote stays written.
     */
    method ParseReal(pr: Project, p: Path, fuel: nat) returns (status: Status)
      modifies this
      decreases fuel, 0
      ensures status == Visit(pr, p, fuel).status
      ensures out == old(out) + Visit(pr, p, fuel).lines
    {
      if fuel == 0 {
        return Exhausted;
      }
      if p !in pr.files {
        return Failed(ReadFailed(p));
      }
      var info := pr.files[p];
      if info.tree.None? {
        return Failed(ParseFailed(p));
      }
      var syn := info.tree.value;
      ghost var own := Run(OwnLines(syn.defs), Ok);
      assert Visit(pr, p, fuel) == Then(VisitIncludes(pr, p, info.parent, syn.includes, fuel - 1), own);
      status := WalkIncludes(pr, p, info.parent, syn.includes, fuel - 1);
      if !status.Ok? {
        ThenFailed(VisitIncludes(pr, p, info.parent, syn.includes, fuel - 1), own);
        return;
      }
      ghost var included := VisitIncludes(pr, p, info.parent, syn.includes, fuel - 1).lines;
      WriteOwnLines(syn.defs);
      Reassociate(old(out), included, own.lines);
      return Ok;
    }

    /**
     * The include loop of `parse_real`: each include match in order, each
     * walked in full before the next; the first failure ends the loop.
     */
    method WalkIncludes(pr: Project, p: Path, parent: Option<Path>, lits: seq<string>, fuel: nat) returns (status: Status)
      modifies this
      decreases fuel, 4
      ensures status == VisitIncludes(pr, p, parent, lits, fuel).status
      ensures out == old(out) + VisitIncludes(pr, p, parent, lits, fuel).lines
    {
      ghost var incl := VisitIncludes(pr, p, parent, lits, fuel);
      ghost var done: seq<string> := [];
      var i := 0;
      while i < |lits|
        invariant 0 <= i <= |lits|
        invariant out == old(out) + done
        invariant incl.lines == done + VisitIncludes(pr, p, parent, lits[i..], fuel).lines
        invariant incl.status == VisitIncludes(pr, p, parent, lits[i..], fuel).status
      {
        var st := IncludeMatch(pr, p, parent, lits[i], fuel);
        if !st.Ok? {
          IncludesStepFailed(pr, p, parent, lits, i, fuel);
          Reassociate(old(out), done, Include(pr, p, parent, lits[i], fuel).lines);
          return st;
        }
        IncludesStepOk(pr, p, parent, lits, i, fuel);
        ghost var step := Include(pr, p, parent, lits[i], fuel).lines;
        ghost var rest := VisitIncludes(pr, p, parent, lits[i + 1..], fuel).lines;
        Reassociate(done, step, rest);
        Reassociate(old(out), done, step);
        done := done + step;
        i := i + 1;
      }
      assert lits[i..] == [];
      return Ok;
    }

    /**
     * One iteration of `parse_real`'s include loop: trim the quotes off the
     * captured literal, take the parent directory of `p` as the base, build
     * the glob walker, and walk what it yields.
     */
    method IncludeMatch(pr: Project, p: Path, parent: Option<Path>, lit: string, fuel: nat) returns (status: Status)
      modifies this
      decreases fuel, 3
      ensures status == Include(pr, p, parent, lit, fuel).status
      ensures out == old(out) + Include(pr, p, parent, lit, fuel).lines
    {
      var pattern := TrimQuotes(lit);
      if parent.None? {
        return Failed(NoParent(p));
      }
      var base := parent.value;
      var found := pr.glob(base, pattern);
      if found.None? {
        return Failed(BadPattern(base, pattern));
      }
      status := WalkEntries(pr, found.value, fuel);
    }

    /**
     * The inner loop of `parse_real`'s include loop: walk each path the glob
     * walker yields, skipping failed entries, and stop at the first failure.
     */
    method WalkEntries(pr: Project, entries: seq<Entry>, fuel: nat) returns (status: Status)
      modifies this
      decreases fuel, 2
      ensures status == VisitAll(pr, Paths(entries), fuel).status
      ensures out == old(out) + VisitAll(pr, Paths(entries), fuel).lines
    {
      ghost var inner: seq<string> := [];
      var j := 0;
      while j < |entries|
        invariant 0 <= j <= |entries|
        invariant out == old(out) + inner
        invariant VisitAll(pr, Paths(entries), fuel).lines == inner + VisitAll(pr, Paths(entries[j..]), fuel).lines
        invariant VisitAll(pr, Paths(entries), fuel).status == VisitAll(pr, Paths(entries[j..]), fuel).status
      {
        EntryStep(pr, entries, j, fuel);
        var st := WalkEntry(pr, entries[j], fuel);
        ghost var step := EntryRun(pr, entries[j], fuel);
        ghost var rest := VisitAll(pr, Paths(entries[j + 1..]), fuel);
        if !st.Ok? {
          ThenFailed(step, rest);
          Reassociate(old(out), inner, step.lines);
          return st;
        }
        ThenOk(step, rest);
        Reassociate(inner, step.lines, rest.lines);
        Reassociate(old(out), inner, step.lines);
        inner := inner + step.lines;
        j := j + 1;
      }
      assert entries[j..] == [];
      return Ok;
    }

    /** One entry of the glob walker: a found path is walked, a failed entry is skipped. */
    method WalkEntry(pr: Project, e: Entry, fuel: nat) returns (status: Status)
      modifies this
      decreases fuel, 1
      ensures status == EntryRun(pr, e, fuel).status
      ensures out == old(out) + EntryRun(pr, e, fuel).lines
    {
      if e.EntryError? {
        return Ok;
      }
      status := ParseReal(pr, e.path, fuel);
    }

    /**
     * The definition loop of `parse_real`: for each definition in order, one
     * edge line from its name to each of its uses, in order.
     */
    method WriteOwnLines(defs: seq<Definition>)
      modifies this
      ensures out == old(out) + OwnLines(defs)
    {
      var k := 0;
      while k < |defs|
        invariant 0 <= k <= |defs|
        invariant out == old(out) + OwnLines(defs[..k])
      {
        var d := defs[k];
        var m := 0;
        while m < |d.uses|
          invariant 0 <= m <= |d.uses|
          invariant out == old(out) + OwnLines(defs[..k]) + DefLines(d)[..m]
        {
          WriteLine(EdgeLine(d.name, d.uses[m]));
          assert DefLines(d)[..m + 1] == DefLines(d)[..m] + [EdgeLine(d.name, d.uses[m])];
          Reassociate(old(out) + OwnLines(defs[..k]), DefLines(d)[..m], [EdgeLine(d.name, d.uses[m])]);
          m := m + 1;
        }
        assert defs[..k + 1][..k] == defs[..k];
        assert DefLines(d)[..m] == DefLines(d);
        Reassociate(old(out), OwnLines(defs[..k]), DefLines(d));
        k := k + 1;
      }
      assert defs[..k] == defs;
    }

    /** `parse(root)`: the header, the walk from `root`, and the footer only if the walk succeeded. */
    method Parse(pr: Project, root: Path, fuel: nat) returns (status: Status)
      modifies this
      ensures status == Document(pr, root, fuel).status
      ensures out == old(out) + Document(pr, root, fuel).lines
    {
      WriteLine(Header[0]);
      WriteLine(Header[1]);
      status := ParseReal(pr, root, fuel);
      if !status.Ok? {
        return;
      }
      WriteLine(Footer);
    }
  }

  /** Lines appended in three stretches are the same however the stretches are grouped. */
  lemma Reassociate(a: seq<string>, b: seq<string>, c: seq<string>)
    ensures (a + b) + c == a + (b + c)
  {
  }

  /**
   * `main` without the command line: create the output file, parse from
   * `root`, and return what the file then holds together with the outcome.
   */
  method Convert(pr: Project, root: Path, fuel: nat) returns (file: seq<string>, status: Status)
    ensures file == Document(pr, root, fuel).lines && status == Document(pr, root, fuel).status
  {
    var app := new App();
    status := app.Parse(pr, root, fuel);
    file := app.out;
  }
}

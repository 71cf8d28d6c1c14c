/**
 * The data the walk consumes, with the tree-sitter parser, its queries and
 * the file system abstracted away: a project maps each readable path to what
 * the include and definition queries find in that file.
 */
module Project {
  import opened Options
  import opened Dot

  type Path = string

  /** A `definition` block: its name capture and, in source order, the identifiers of the `use` statements in its body. */
  datatype Definition = Definition(name: string, uses: seq<string>)

  /** What the queries return for one parsed file: the include string literals (quotes still on) and the definitions, in match order. */
  datatype Syntax = Syntax(includes: seq<string>, defs: seq<Definition>)

  /**
   * One readable file: the parent directory of its path (`None` when the
   * path has none) and its parse result (`None` when the parser gives up).
   */
  datatype FileInfo = FileInfo(parent: Option<Path>, tree: Option<Syntax>)

  /** One item produced by the glob walker: a matched path, or an entry that failed to open or stat. */
  datatype Entry = Found(path: Path) | EntryError

  /**
   * The world the walk runs in. `files` holds every path that reads as
   * UTF-8 text; `glob(base, pattern)` is the walker's output for a pattern
   * relative to `base`, in enumeration order, or `None` when building the
   * walker fails.
   */
  datatype Project = Project(files: map<Path, FileInfo>, glob: (Path, string) -> Option<seq<Entry>>)

  /** `filter_map(Result::ok)`: the matched paths, with failed entries dropped. */
  function Paths(entries: seq<Entry>): (r: seq<Path>)
    ensures |r| <= |entries|
  {
    if entries == [] then []
    else
      var rest := Paths(entries[1..]);
      assert entries == [entries[0]] + entries[1..];
      match entries[0]
      case Found(q) => [q] + rest
      case EntryError => rest
  }

  /** A path is walked exactly when the walker found it. */
  lemma {:induction false} PathsMember(entries: seq<Entry>, q: Path)
    ensures q in Paths(entries) <==> Found(q) in entries
  {
    if entries != [] {
      assert entries == [entries[0]] + entries[1..];
      PathsMember(entries[1..], q);
    }
  }

  /** Dropping failed entries keeps the matched paths in walker order. */
  lemma {:induction false} PathsAppend(a: seq<Entry>, b: seq<Entry>)
    ensures Paths(a + b) == Paths(a) + Paths(b)
  {
    if a != [] {
      assert (a + b)[0] == a[0];
      assert (a + b)[1..] == a[1..] + b;
      PathsAppend(a[1..], b);
    } else {
      assert a + b == b;
    }
  }

  /** A walker that yields only failed entries yields no path at all. */
  lemma {:induction false} PathsOfErrors(entries: seq<Entry>)
    requires forall e :: e in entries ==> e.EntryError?
    ensures Paths(entries) == []
  {
    if entries != [] {
      assert entries[0] in entries;
      assert forall e :: e in entries[1..] ==> e in entries;
      PathsOfErrors(entries[1..]);
    }
  }

  /** The lines one definition contributes: one edge from its name to each use, in use order. */
  function DefLines(d: Definition): seq<string> {
    seq(|d.uses|, i requires 0 <= i < |d.uses| => EdgeLine(d.name, d.uses[i]))
  }

  /** Total number of `use` statements over a sequence of definitions. */
  function UseCount(defs: seq<Definition>): nat {
    if defs == [] then 0 else UseCount(defs[..|defs| - 1]) + |defs[|defs| - 1].uses|
  }

  /** The lines a file writes for its own definitions, in definition order and then use order. */
  function OwnLines(defs: seq<Definition>): (r: seq<string>)
    ensures |r| == UseCount(defs)
  {
    if defs == [] then [] else OwnLines(defs[..|defs| - 1]) + DefLines(defs[|defs| - 1])
  }

  /** Own lines distribute over a split of the definitions: earlier definitions' lines come first. */
  lemma {:induction false} OwnLinesAppend(a: seq<Definition>, b: seq<Definition>)
    ensures OwnLines(a + b) == OwnLines(a) + OwnLines(b)
  {
    if b != [] {
      var ab := a + b;
      assert ab[..|ab| - 1] == a + b[..|b| - 1];
      assert ab[|ab| - 1] == b[|b| - 1];
      OwnLinesAppend(a, b[..|b| - 1]);
    } else {
      assert a + b == a;
    }
  }

  /**
   * Definition order, then use order: the edge for use `j` of definition `i`
   * sits right after the edges of all earlier definitions and of the earlier
   * uses of definition `i`.
   */
  lemma OwnLinesAt(defs: seq<Definition>, i: nat, j: nat)
    requires i < |defs| && j < |defs[i].uses|
    ensures UseCount(defs[..i]) + j < |OwnLines(defs)|
    ensures OwnLines(defs)[UseCount(defs[..i]) + j] == EdgeLine(defs[i].name, defs[i].uses[j])
  {
    assert defs == defs[..i] + ([defs[i]] + defs[i + 1..]);
    OwnLinesAppend(defs[..i], [defs[i]] + defs[i + 1..]);
    OwnLinesAppend([defs[i]], defs[i + 1..]);
    assert [defs[i]][..0] == [];
    assert OwnLines([defs[i]]) == DefLines(defs[i]);
  }

  /** Each (definition, use) pair of the file contributes its edge line. */
  lemma {:induction false} OwnLinesComplete(defs: seq<Definition>, i: nat, j: nat)
    requires i < |defs| && j < |defs[i].uses|
    ensures EdgeLine(defs[i].name, defs[i].uses[j]) in OwnLines(defs)
  {
    var n := |defs| - 1;
    if i < n {
      assert defs[..n][i] == defs[i];
      OwnLinesComplete(defs[..n], i, j);
    } else {
      assert DefLines(defs[n])[j] == EdgeLine(defs[i].name, defs[i].uses[j]);
    }
  }

  /** Every own line is the edge line of some (definition, use) pair of the file. */
  lemma {:induction false} OwnLinesSound(defs: seq<Definition>, l: string)
    requires l in OwnLines(defs)
    ensures exists i, j :: 0 <= i < |defs| && 0 <= j < |defs[i].uses| && l == EdgeLine(defs[i].name, defs[i].uses[j])
  {
    var n := |defs| - 1;
    if l in OwnLines(defs[..n]) {
      OwnLinesSound(defs[..n], l);
      var i, j :| 0 <= i < n && 0 <= j < |defs[..n][i].uses| && l == EdgeLine(defs[..n][i].name, defs[..n][i].uses[j]);
      assert defs[..n][i] == defs[i];
    } else {
      var j :| 0 <= j < |defs[n].uses| && DefLines(defs[n])[j] == l;
    }
  }

  /**
   * A line belongs to a file's own contribution exactly when it is the edge
   * from some definition's name to one of that definition's uses.
   */
  lemma OwnLinesMember(defs: seq<Definition>, l: string)
    ensures l in OwnLines(defs) <==>
      exists i, j :: 0 <= i < |defs| && 0 <= j < |defs[i].uses| && l == EdgeLine(defs[i].name, defs[i].uses[j])
  {
    if l in OwnLines(defs) {
      OwnLinesSound(defs, l);
    }
    if exists i, j :: 0 <= i < |defs| && 0 <= j < |defs[i].uses| && l == EdgeLine(defs[i].name, defs[i].uses[j]) {
      var i, j :| 0 <= i < |defs| && 0 <= j < |defs[i].uses| && l == EdgeLine(defs[i].name, defs[i].uses[j]);
      OwnLinesComplete(defs, i, j);
    }
  }

  /** Every line of one definition's block has that definition's name as its `from` label. */
  lemma DefLinesShareFrom(d: Definition, l: string)
    requires l in DefLines(d)
    ensures exists u :: u in d.uses && l == EdgeLine(d.name, u)
  {
    var j :| 0 <= j < |d.uses| && DefLines(d)[j] == l;
    assert d.uses[j] in d.uses;
  }
}

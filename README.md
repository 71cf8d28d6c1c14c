# proj-to-dot, modelled in Dafny

`proj-to-dot` reads a CoreMake project file. It follows the file's
`include` directives recursively and writes a Graphviz DOT document with one
edge `"from" -> "to"` for every `use` statement inside a `definition` block.
This project models the core of that tool, `App::parse_real` and
`App::parse` in `src/main.rs`, and proves properties of the model.

The model is split into these modules:

- `Quotes` (quotes.dfy): `str::trim_matches('"')`. This is the quote trim that
  turns an include's captured string literal into a glob pattern.
- `Dot` (dot.dfy): the document's lines. They are the two header lines, the
  edge line format and the footer. An inverse reader recovers `(from, to)`
  from an edge line.
- `Project` (project.dfy): the data the walk consumes, with the parser and
  the file system abstracted away. A project maps each readable path to its
  parent directory and its parse result. A parse result is the include
  literals plus the definitions, each with its uses, in match order. A
  function `glob(base, pattern)` gives the glob walker's output: a sequence
  of found paths and failed entries, or `None` when building the walker
  fails. `Paths` is `filter_map(Result::ok)`. `OwnLines` gives the edge lines
  a file writes for its own definitions.
- `Walk` (walk.dfy): the walk as functions. `Visit` is `parse_real`.
  `VisitIncludes` is its include loop, `Include` is one include match, and
  `VisitAll` is the inner loop over the walker. `Document` is `parse`.
  A `Run` holds the lines written and how the walk ended. `Then`
  sequences two stretches the way `?` does: a failure stops the walk, and the
  lines written before it stay written.
- `IncludeTree` (tree.dfy): an independent reference for a successful walk.
  It is the tree of file visits, and the walk writes exactly its post-order
  flattening.
- `Application` (app.dfy): the `App` object as a class. Its field `out` is the
  output file. `ParseReal` is a recursive method and `Parse` frames it with
  the header and footer. Both are proved to write exactly what `Visit` and
  `Document` describe.

Termination is handled with fuel. The source has no cycle guard, so a file
that includes itself recurses until the stack overflows. Every walk function
and method takes a `fuel` bound on the include nesting depth. Running out of
fuel gives the status `Exhausted`, which stands for that unbounded recursion
and is not an error the program reports. The following lemmas relate the
fuel bound to what the program does:

- `VisitFuel` and its companions: more fuel than needed changes nothing.
- `VisitFinishes`: an acyclic project never exhausts enough fuel.
- `SelfIncludeNeverSucceeds`: a file that includes itself through any of its
  include matches never succeeds, whatever the fuel.
- `SelfIncludeNeverFinishes`: a file whose first include match resolves first
  to itself exhausts every fuel and writes nothing.

The traversal is post-order. A file's own edges follow everything its
includes wrote. The code has no cycle guard and does not escape labels.
Cycles are modelled as `Exhausted`, and `Dot.EdgeLineUnescaped` exhibits two
different edges that produce the same line.

## Model

| member | source | states |
|---|---|---|
| Quotes.TrimStart | src/main.rs:59 | the front half of `trim_matches('"')`: every leading quote is dropped. `TrimStartSpec` states its contract |
| Quotes.TrimEnd | src/main.rs:59 | the back half of `trim_matches('"')`: every trailing quote is dropped. `TrimEndSpec` states its contract |
| Quotes.TrimStartSpec | src/main.rs:59 | trimming leading quotes leaves the suffix after a run made only of quotes, and that suffix does not start with a quote |
| Quotes.TrimEndSpec | src/main.rs:59 | trimming trailing quotes leaves the prefix before a run made only of quotes, and that prefix does not end with a quote |
| Quotes.TrimQuotes | src/main.rs:59 | the pattern neither starts nor ends with a double quote and is no longer than the literal |
| Quotes.TrimQuotesDecomposes | src/main.rs:59 | the literal is a run of quotes, then the pattern, then a run of quotes, so only quotes are removed, and only from the ends |
| Quotes.TrimQuotesExact | src/main.rs:59 | for any quote runs around a string that neither starts nor ends with a quote, the trim returns exactly that string; all of each run is removed, not just one quote |
| Quotes.TrimQuotesIdempotent | src/main.rs:59 | trimming a trimmed pattern changes nothing |
| Quotes.TrimQuotesOfLiteral | src/main.rs:59 | a literal `"p"` yields `p` when `p` neither starts nor ends with a quote |
| Dot.EdgeLine | src/main.rs:80 | an edge line is 11 characters longer than its two labels, opens with two spaces and a quote, and closes with `";` |
| Dot.ReadEdgeLine | src/main.rs:80 | when it reads a line, the line is exactly the edge line of the recovered labels, and the `from` label holds no quote |
| Dot.EdgeLineRoundTrip | src/main.rs:80 | reading back the edge line of a quote-free `from` label gives back both labels |
| Dot.EdgeLineInjective | src/main.rs:80 | for quote-free `from` labels, equal edge lines mean equal edges |
| Dot.EdgeLineUnescaped | src/main.rs:80 | labels are not escaped: two different edges write the same line when a label holds a quote |
| Dot.EdgeLineIsNotFrame | src/main.rs:80-97 | no edge line equals a header line or the footer |
| Project.Paths | src/main.rs:61-64 | dropping failed walker entries never adds paths |
| Project.PathsMember | src/main.rs:61-66 | a path is recursed into exactly when the walker found it |
| Project.PathsAppend | src/main.rs:61-66 | dropping failed entries keeps the found paths in walker order |
| Project.PathsOfErrors | src/main.rs:64 | a walker that yields only failed entries yields no path |
| Project.OwnLines | src/main.rs:73-82 | a file writes as many edge lines as its definitions have uses in total |
| Project.OwnLinesAppend | src/main.rs:73-82 | the lines of earlier definitions come before those of later ones |
| Project.OwnLinesAt | src/main.rs:73-82 | the edge for use `j` of definition `i` sits at the index just after the edges of all earlier definitions and earlier uses: definition order, then use order |
| Project.OwnLinesComplete | src/main.rs:73-82 | every (definition, use) pair has its edge line in the file's output |
| Project.OwnLinesSound | src/main.rs:73-82 | every line of the file's output is the edge of some (definition, use) pair |
| Project.OwnLinesMember | src/main.rs:73-82 | a line is in the file's own output exactly when it is the edge from some definition's name to one of its uses |
| Project.DefLines | src/main.rs:76-81 | the inner loop over one definition's uses: one edge line per use, in order. `DefLinesShareFrom` and `OwnLinesAt` state its properties |
| Project.DefLinesShareFrom | src/main.rs:74-80 | every line written for one definition has that definition's name as its `from` label |
| Walk.Then | src/main.rs:67 | the `?` operator between two stretches of the walk: a failure ends the walk, and lines already written stay written. `ThenAssoc`, `VisitAllAppend` and `FailureAborts` state its laws |
| Walk.Visit | src/main.rs:44-84 | `parse_real`: read, parse, run the include loop, then write the file's own edges. `IncludeTree.VisitIsPostOrder` ties it to the visit tree, and `VisitEmits`, `VisitFuel` and `NestedFailurePropagates` state its other properties |
| Walk.VisitIncludes | src/main.rs:58-69 | the include loop: each include match in order, each fully walked before the next. `IncludeTree.IncludesArePostOrder`, `VisitIncludesAppend` and `IncludesFailAt` state its properties |
| Walk.Include | src/main.rs:59-68 | one include match: trim the literal, fail without a parent directory, fail when the walker cannot be built, else walk every found path. `NoParentFailsOnlyWithIncludes` and `EntryErrorsSkipped` state its error cases |
| Walk.VisitAll | src/main.rs:66-68 | the inner loop over the walker's paths, stopping at the first failure. `VisitAllAppend`, `WalkerFailsAt` and `NoDeduplication` state its properties |
| Walk.EntryRun | src/main.rs:64-67 | what one raw walker entry contributes: the walk of a found path, or nothing for a failed entry. `Application.App.WalkEntries` is proved against it |
| Walk.Document | src/main.rs:86-100 | `parse`: the header, the walk, and the footer only when the walk succeeded. `DocumentFramed` and `DocumentOnFailure` state its properties |
| Walk.VisitEmits | src/main.rs:44-84 | every line a walk of `p` writes, even before a failure, is an own edge line of a parsed file reached from `p` through at most `fuel` include steps |
| Walk.IncludesEmit | src/main.rs:58-69 | every line the include loop writes comes from a file reached, within the depth bound, from a path that one of the loop's include literals resolves to |
| Walk.IncludeEmits | src/main.rs:58-68 | every line one include match writes comes from a file reached, within the depth bound, from a path that the match resolves to |
| Walk.AllEmit | src/main.rs:66-68 | every line the walker loop writes comes from a file reached, within the depth bound, from one of the loop's paths |
| Walk.VisitLinesAreUses | src/main.rs:44-84 | every written line, including lines written before a failure, is the edge from a definition's name to a use inside that definition, in a parsed file reached from `p` through includes |
| Walk.VisitFuel | src/main.rs:44-84 | once a walk does not exhaust its depth bound, a larger bound gives the same lines and outcome |
| Walk.IncludesFuel | src/main.rs:58-69 | the same for the include loop |
| Walk.IncludeFuel | src/main.rs:58-68 | the same for one include match |
| Walk.AllFuel | src/main.rs:66-68 | the same for the loop over the walker's paths |
| Walk.VisitFinishes | src/main.rs:44-84 | on a project whose include relation strictly decreases a rank, a bound above the rank never runs out |
| Walk.IncludesFinish | src/main.rs:58-69 | the same for the include loop of a file |
| Walk.AllFinish | src/main.rs:66-68 | the same for the loop over the walker's paths |
| Walk.SelfIncludeNeverFinishes | src/main.rs:58-68 | a file whose first include match resolves first to itself recurses without end and writes nothing |
| Walk.ThenAssoc | src/main.rs:67 | stretches of the walk can be regrouped |
| Walk.VisitAllAppend | src/main.rs:66-68 | walking `ps + qs` walks `ps`, then `qs` only if `ps` succeeded |
| Walk.FailureAborts | src/main.rs:66-68 | a failure aborts the rest of the loop, and lines written before it stay written |
| Walk.NestedFailurePropagates | src/main.rs:58-68 | take include match `i` and walker path `j` of `p`, where every earlier include match and every earlier path succeeded and path `j` fails. Then the walk of `p` fails with that path's outcome, and has written the earlier matches' lines, the earlier paths' lines and the failed walk's lines, and none of its own edges |
| Walk.VisitIncludesAppend | src/main.rs:58-69 | running the include matches `a + b` runs `a`, then `b` only if `a` succeeded |
| Walk.WalkerFailsAt | src/main.rs:66-68 | a walker loop whose first failing path is `ps[j]` ends with that path's outcome, after the earlier paths' lines and the failed walk's lines |
| Walk.IncludesFailAt | src/main.rs:58-69 | an include loop whose first failing match is `lits[i]` ends with that match's outcome, after the earlier matches' lines |
| Walk.IncludesOkEach | src/main.rs:58-69 | a successful include loop ran every include match successfully |
| Walk.AllOkEach | src/main.rs:66-68 | a successful walker loop walked every path successfully |
| Walk.SelfIncludeNeverSucceeds | src/main.rs:58-68 | a file that one of its own include matches resolves to never succeeds, for any depth bound |
| Walk.NoDeduplication | src/main.rs:66-68 | paths reached twice are walked twice and their lines written twice |
| Walk.EntryErrorsSkipped | src/main.rs:61-68 | a pattern whose walker yields only failed entries adds no lines and does not fail |
| Walk.NoParentFailsOnlyWithIncludes | src/main.rs:58-60 | a file with no parent directory fails with `NoParent` exactly when it has at least one include; otherwise it writes its own edges |
| Walk.DocumentFramed | src/main.rs:86-100 | after a successful walk, the document is the two header lines, the walk's lines and the footer. Each header line and the footer occur exactly once, and every line between them is an edge of a file reached from the root |
| Walk.DocumentOnFailure | src/main.rs:86-100 | after a failed walk, the document is the header and the lines written before the failure, and it has no footer |
| Walk.BodyHasNoFrame | src/main.rs:86-100 | the walk never writes a header line or the footer |
| IncludeTree.Build | src/main.rs:44-84 | the visit tree of a successful walk of `p`, built without output. `IncludeTree.VisitIsPostOrder` and `BuildShape` relate it to the walk |
| IncludeTree.BuildIncludes | src/main.rs:58-69 | the visits made by an include loop, in include-match order. `IncludesArePostOrder` and `IncludesShape` state its properties |
| IncludeTree.BuildInclude | src/main.rs:59-68 | the visits made by one include match. `IncludeIsPostOrder` states its properties |
| IncludeTree.BuildAll | src/main.rs:66-68 | the visits made by the walker loop, in walker order. `AllArePostOrder` and `AllShape` state its properties |
| IncludeTree.Resolved | src/main.rs:58-64 | the paths an include list resolves to, in include-match order then walker order. `BuildShape` and `IncludedLinesPrecedeOwnLines` state that a successful walk visits exactly these |
| IncludeTree.VisitIsPostOrder | src/main.rs:44-84 | a walk succeeds exactly when its visit tree exists, and then it writes the tree's post-order flattening |
| IncludeTree.IncludesArePostOrder | src/main.rs:58-69 | the same for the include loop and the forest of its visits |
| IncludeTree.IncludeIsPostOrder | src/main.rs:58-68 | the same for one include match |
| IncludeTree.AllArePostOrder | src/main.rs:66-68 | the same for the walker's paths |
| IncludeTree.BuildShape | src/main.rs:44-84 | a visit node is its file's visit: its own lines are the file's edge lines, and its children are visits of exactly the paths the file's includes resolve to, in order |
| IncludeTree.IncludesShape | src/main.rs:58-69 | the children built for an include list are visits of the resolved paths, in include-match order and then walker order |
| IncludeTree.AllShape | src/main.rs:66-68 | the visits built for a path list are, in order, visits of those paths |
| IncludeTree.ChildrenAreWalks | src/main.rs:66-67 | every child of a visit is a successful walk of its path one level deeper |
| IncludeTree.IncludedLinesPrecedeOwnLines | src/main.rs:58-82 | after a successful walk, each resolved include was walked in full and wrote one contiguous block, in resolution order, and the file's own edges close the output |
| Application.App.constructor | src/main.rs:28-29 | the output file starts empty |
| Application.App.WriteLine | src/main.rs:90-97 | one line is appended to the output file |
| Application.App.ParseReal | src/main.rs:44-84 | the method returns the walk's outcome and appends exactly the walk's lines to the file, including on failure |
| Application.App.WalkIncludes | src/main.rs:58-69 | the include loop appends exactly the include loop's lines and returns its outcome |
| Application.App.IncludeMatch | src/main.rs:59-68 | one include match: trim, base directory, walker, then the walk of each found path |
| Application.App.WalkEntries | src/main.rs:61-68 | the loop over the walker appends exactly the lines of walking its found paths and stops at the first failure |
| Application.App.WalkEntry | src/main.rs:64-67 | a found entry is walked and a failed one is skipped |
| Application.App.WriteOwnLines | src/main.rs:71-82 | the definition loop appends exactly the file's own edge lines |
| Application.App.Parse | src/main.rs:86-100 | the file receives the header, the walk's lines, and the footer only if the walk succeeded |
| Application.Convert | src/main.rs:103-110 | a fresh output file holds exactly the document when `parse` returns, together with its outcome |

## Left out

- The tree-sitter grammar, parser and queries are not modelled. Each file's include literals and definitions with their uses are data in the project.
- `Parser::set_language` failing is not modelled, because it depends on the grammar library.
- `utf8_text` failing on a capture is not modelled. Captures are already strings.
- `read_to_string` is modelled only through the set of readable paths. Reading an unreadable or non-UTF-8 file is the `ReadFailed` error.
- The glob walker's enumeration order and its file-system access are not modelled. The walker's output is given by the project's `glob` function.
- `Path::parent` is not computed from the path. Each file's parent directory is given as data, so Rust giving an empty parent for a bare relative name is captured only through that data.
- Failures of `File::create` and `writeln!` are not modelled, because the output file is an in-memory sequence of lines.
- The `RefCell` borrow of the output, the logging and the command-line parsing are not modelled.
- ParseReal, Visit and the other walk members: the stack overflow of an include cycle is modelled as the status `Exhausted` once the `fuel` depth bound runs out. The exact depth at which the real stack overflows is not modelled.

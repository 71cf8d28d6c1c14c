/**
 * The lines of the Graphviz DOT document the tool writes: a fixed two-line
 * header, one line per edge, and a closing brace. Labels are inserted
 * verbatim between double quotes; nothing is escaped.
 */
module Dot {
  import opened Options
  import opened Quotes

  /** The header `parse` writes before the walk starts. */
  const Header: seq<string> := ["digraph Uses {", "  ratio=1.3;"]

  /** The footer `parse` writes after a successful walk. */
  const Footer: string := "}"

  const EdgeOpen: string := "  \""
  const Arrow: string := "\" -> \""
  const EdgeClose: string := "\";"

  /** One edge line: two spaces, the quoted `from` label, an arrow, the quoted `to` label, a semicolon. */
  function EdgeLine(from: string, to: string): (r: string)
    ensures |r| == |from| + |to| + 11
    ensures r[..3] == EdgeOpen && r[|r| - 2..] == EdgeClose
  {
    EdgeOpen + from + Arrow + to + EdgeClose
  }

  /** Index of the first double quote in `m`, or `|m|` when there is none. */
  function FirstQuote(m: string): (k: nat)
    ensures k <= |m|
    ensures forall i :: 0 <= i < k ==> m[i] != Quote
    ensures k < |m| ==> m[k] == Quote
  {
    if m == [] || m[0] == Quote then 0 else 1 + FirstQuote(m[1..])
  }

  /**
   * Reads an edge line back: the `from` label runs up to the first quote
   * after the opening one, and must be followed by the arrow.
   */
  function ReadEdgeLine(l: string): (r: Option<(string, string)>)
    ensures r.Some? ==> l == EdgeLine(r.value.0, r.value.1) && Quote !in r.value.0
  {
    if |l| < 11 || l[..3] != EdgeOpen || l[|l| - 2..] != EdgeClose then None
    else
      var m := l[3..|l| - 2];
      var k := FirstQuote(m);
      if k + 6 <= |m| && m[k..k + 6] == Arrow then
        var from, to := m[..k], m[k + 6..];
        SplitAtArrow(m, k);
        Reframe(l, from, to);
        assert forall i :: 0 <= i < |from| ==> from[i] != Quote;
        Some((from, to))
      else None
  }

  lemma SplitAtArrow(m: string, k: nat)
    requires k + 6 <= |m| && m[k..k + 6] == Arrow
    ensures m == m[..k] + Arrow + m[k + 6..]
  {
    assert m == m[..k] + m[k..k + 6] + m[k + 6..];
  }

  lemma Reframe(l: string, from: string, to: string)
    requires |l| >= 11 && l[..3] == EdgeOpen && l[|l| - 2..] == EdgeClose
    requires l[3..|l| - 2] == from + Arrow + to
    ensures l == EdgeLine(from, to)
  {
    assert l == l[..3] + l[3..|l| - 2] + l[|l| - 2..];
  }

  /**
   * The edge format round-trips whenever the `from` label holds no double
   * quote; the `to` label may hold anything.
   */
  lemma EdgeLineRoundTrip(from: string, to: string)
    requires Quote !in from
    ensures ReadEdgeLine(EdgeLine(from, to)) == Some((from, to))
  {
    var l := EdgeLine(from, to);
    var m := from + Arrow + to;
    assert l[3..|l| - 2] == m;
    var k := FirstQuote(m);
    assert m[|from|] == Quote;
    assert k == |from|;
    assert m[k..k + 6] == Arrow;
    assert m[..k] == from && m[k + 6..] == to;
  }

  /** For quote-free `from` labels, distinct edges give distinct lines. */
  lemma EdgeLineInjective(f1: string, t1: string, f2: string, t2: string)
    requires Quote !in f1 && Quote !in f2
    requires EdgeLine(f1, t1) == EdgeLine(f2, t2)
    ensures f1 == f2 && t1 == t2
  {
    EdgeLineRoundTrip(f1, t1);
    EdgeLineRoundTrip(f2, t2);
  }

  /**
   * Labels are not escaped: a `from` label holding a quote can produce the
   * same line as a different edge.
   */
  lemma EdgeLineUnescaped()
    ensures EdgeLine("a\" -> \"b", "c") == EdgeLine("a", "b\" -> \"c")
  {
  }

  /** No edge line can be mistaken for a header or footer line. */
  lemma EdgeLineIsNotFrame(from: string, to: string)
    ensures EdgeLine(from, to) !in Header
    ensures EdgeLine(from, to) != Footer
  {
    var l := EdgeLine(from, to);
    assert l[0] == ' ' && l[2] == Quote;
    assert Header[0][0] == 'd';
    assert Header[1][2] == 'r';
  }
}

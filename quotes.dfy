/**
 * The quote trim applied to an include directive's captured string literal:
 * Rust's `str::trim_matches('"')`, which removes every leading and every
 * trailing double-quote character (not just one of each, and without
 * interpreting escape sequences).
 */
module Quotes {
  const Quote: char := '"'

  /** A run of `n` double quotes. */
  function Quotes(n: nat): (r: string)
    ensures |r| == n
    ensures forall i :: 0 <= i < n ==> r[i] == Quote
  {
    if n == 0 then [] else Quotes(n - 1) + [Quote]
  }

  /** Every character of `s` is a double quote. */
  predicate AllQuotes(s: string) {
    forall i :: 0 <= i < |s| ==> s[i] == Quote
  }

  /** `s` neither starts nor ends with a double quote. */
  predicate Unquoted(s: string) {
    s == [] || (s[0] != Quote && s[|s| - 1] != Quote)
  }

  /** Drops every leading double quote. */
  function TrimStart(s: string): string {
    if |s| > 0 && s[0] == Quote then TrimStart(s[1..]) else s
  }

  /** Drops every trailing double quote. */
  function TrimEnd(s: string): string {
    if |s| > 0 && s[|s| - 1] == Quote then TrimEnd(s[..|s| - 1]) else s
  }

  /** `TrimStart` leaves the suffix after the leading run of quotes, which does not start with a quote. */
  lemma {:induction false} TrimStartSpec(s: string)
    ensures var r := TrimStart(s);
      |r| <= |s| && r == s[|s| - |r|..] && AllQuotes(s[..|s| - |r|]) && (r == [] || r[0] != Quote)
  {
    if |s| > 0 && s[0] == Quote {
      var r := TrimStart(s[1..]);
      TrimStartSpec(s[1..]);
      assert s[..|s| - |r|] == [Quote] + s[1..][..|s| - 1 - |r|];
    }
  }

  /** `TrimEnd` leaves the prefix before the trailing run of quotes, which does not end with a quote. */
  lemma {:induction false} TrimEndSpec(s: string)
    ensures var r := TrimEnd(s);
      |r| <= |s| && r == s[..|r|] && AllQuotes(s[|r|..]) && (r == [] || r[|r| - 1] != Quote)
  {
    if |s| > 0 && s[|s| - 1] == Quote {
      var r := TrimEnd(s[..|s| - 1]);
      TrimEndSpec(s[..|s| - 1]);
      assert s[|r|..] == s[..|s| - 1][|r|..] + [Quote];
    }
  }

  /** `trim_matches('"')`: the glob pattern of an include directive. */
  function TrimQuotes(s: string): (r: string)
    ensures Unquoted(r)
    ensures |r| <= |s|
  {
    TrimStartSpec(s);
    TrimEndSpec(TrimStart(s));
    TrimEnd(TrimStart(s))
  }

  /** Number of quotes `TrimQuotes` removes from the front of `s`. */
  function Leading(s: string): nat {
    TrimStartSpec(s);
    |s| - |TrimStart(s)|
  }

  /** A string made only of quotes is the run of quotes of its length. */
  lemma AllQuotesIsRun(s: string)
    requires AllQuotes(s)
    ensures s == Quotes(|s|)
  {
  }

  /**
   * What the trim removes is quotes only: `s` is a run of quotes, then the
   * result, then another run of quotes.
   */
  lemma {:induction false} TrimQuotesDecomposes(s: string)
    ensures var r := TrimQuotes(s);
      Leading(s) + |r| <= |s| &&
      s == Quotes(Leading(s)) + r + Quotes(|s| - Leading(s) - |r|)
  {
    var t := TrimStart(s);
    var r := TrimEnd(t);
    TrimStartSpec(s);
    TrimEndSpec(t);
    var a := |s| - |t|;
    var pre, post := s[..a], t[|r|..];
    AllQuotesIsRun(pre);
    AllQuotesIsRun(post);
    assert r == TrimQuotes(s) && a == Leading(s) && |post| == |s| - a - |r|;
    assert s == pre + t;
    assert t == r + post;
    Regroup(pre, r, post);
  }

  /** Three stretches of characters, however grouped, make the same string. */
  lemma Regroup(x: string, y: string, z: string)
    ensures x + (y + z) == x + y + z
  {
  }

  lemma {:induction false} TrimStartOfQuoted(a: nat, t: string)
    requires t == [] || t[0] != Quote
    ensures TrimStart(Quotes(a) + t) == t
  {
    if a > 0 {
      assert Quotes(a) + t == [Quote] + (Quotes(a - 1) + t);
      assert (Quotes(a) + t)[1..] == Quotes(a - 1) + t;
      TrimStartOfQuoted(a - 1, t);
    }
  }

  lemma {:induction false} TrimEndOfQuoted(t: string, b: nat)
    requires t == [] || t[|t| - 1] != Quote
    ensures TrimEnd(t + Quotes(b)) == t
  {
    if b > 0 {
      assert (t + Quotes(b))[..|t| + b - 1] == t + Quotes(b - 1);
      TrimEndOfQuoted(t, b - 1);
    } else {
      assert t + Quotes(b) == t;
    }
  }

  /**
   * The converse of TrimQuotesDecomposes: whenever `s` is quotes, then a
   * string that neither starts nor ends with a quote, then quotes, the trim
   * returns exactly that string. Together the two lemmas pin the result down.
   */
  lemma {:induction false} TrimQuotesExact(a: nat, r: string, b: nat)
    requires Unquoted(r)
    ensures TrimQuotes(Quotes(a) + r + Quotes(b)) == r
  {
    if r == [] {
      assert Quotes(a) + r + Quotes(b) == Quotes(a + b) + [];
      TrimStartOfQuoted(a + b, []);
    } else {
      assert Quotes(a) + r + Quotes(b) == Quotes(a) + (r + Quotes(b));
      TrimStartOfQuoted(a, r + Quotes(b));
      TrimEndOfQuoted(r, b);
    }
  }

  /** Trimming an already trimmed pattern leaves it unchanged. */
  lemma TrimQuotesIdempotent(s: string)
    ensures TrimQuotes(TrimQuotes(s)) == TrimQuotes(s)
  {
    var r := TrimQuotes(s);
    assert Quotes(0) + r + Quotes(0) == r;
    TrimQuotesExact(0, r, 0);
  }

  /** The usual case: a literal `"p"` whose contents do not start or end with a quote yields `p`. */
  lemma TrimQuotesOfLiteral(p: string)
    requires Unquoted(p)
    ensures TrimQuotes([Quote] + p + [Quote]) == p
  {
    assert Quotes(1) == [Quote];
    TrimQuotesExact(1, p, 1);
  }
}

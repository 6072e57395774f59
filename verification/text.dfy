/** String helpers the generators' text is reasoned about with: joining with
    a separator (the comma-separated argument list), splitting it back, and
    counting a character (parenthesis balance). */
module Text {

  /** Number of occurrences of `c` in `s`. */
  function Count(s: string, c: char): nat
  {
    if s == [] then 0 else Count(s[..|s| - 1], c) + (if s[|s| - 1] == c then 1 else 0)
  }

  lemma {:induction false} CountConcat(a: string, b: string, c: char)
    ensures Count(a + b, c) == Count(a, c) + Count(b, c)
  {
    if b == [] {
      assert a + b == a;
    } else {
      CountConcat(a, b[..|b| - 1], c);
      assert (a + b)[..|a + b| - 1] == a + b[..|b| - 1];
    }
  }

  lemma {:induction false} CountAbsent(s: string, c: char)
    requires c !in s
    ensures Count(s, c) == 0
  {
    if s != [] {
      assert s[..|s| - 1] + [s[|s| - 1]] == s;
      CountAbsent(s[..|s| - 1], c);
    }
  }

  /** How many more ')' than '(' the text holds; 0 means the parentheses
      of a statement are balanced. */
  function CloseSurplus(s: string): int
  {
    Count(s, ')') - Count(s, '(')
  }

  lemma SurplusConcat(a: string, b: string)
    ensures CloseSurplus(a + b) == CloseSurplus(a) + CloseSurplus(b)
  {
    CountConcat(a, b, '(');
    CountConcat(a, b, ')');
  }

  lemma Parenless(s: string)
    requires '(' !in s && ')' !in s
    ensures CloseSurplus(s) == 0
  {
    CountAbsent(s, '(');
    CountAbsent(s, ')');
  }

  lemma SurplusOpen()
    ensures CloseSurplus("(") == -1
  {
    assert "("[..0] == [];
  }

  lemma SurplusClose()
    ensures CloseSurplus(")") == 1
  {
    assert ")"[..0] == [];
  }

  /** Regrouping a left-nested concatenation after its first operand. */
  lemma Regroup(a: string, b: string, c: string, d: string, e: string, f: string, g: string)
    ensures a + b + c + d + e + f + g == a + (b + c + d + e + f + g)
  {
  }

  /** `xs` with `sep` between consecutive elements (string.Join). */
  function Join(xs: seq<string>, sep: string): string
  {
    if |xs| == 0 then "" else if |xs| == 1 then xs[0] else xs[0] + sep + Join(xs[1..], sep)
  }

  lemma {:induction false} JoinSnoc(xs: seq<string>, x: string, sep: string)
    requires |xs| >= 1
    ensures Join(xs + [x], sep) == Join(xs, sep) + sep + x
  {
    if |xs| == 1 {
      assert (xs + [x])[1..] == [x];
    } else {
      assert (xs + [x])[1..] == xs[1..] + [x];
      JoinSnoc(xs[1..], x, sep);
    }
  }

  /** Every element followed by `sep`: what a StringBuilder holds after
      appending "item," for each item. */
  function Terminated(xs: seq<string>, sep: string): string
  {
    if xs == [] then "" else Terminated(xs[..|xs| - 1], sep) + xs[|xs| - 1] + sep
  }

  /** Appending one more element and separator to a terminated prefix. */
  lemma TerminatedStep(pre: string, xs: seq<string>, i: nat, sep: string)
    requires i < |xs|
    ensures pre + Terminated(xs[..i + 1], sep) == pre + Terminated(xs[..i], sep) + xs[i] + sep
  {
    assert xs[..i + 1][..i] == xs[..i];
  }

  lemma TerminatedSnoc(pre: string, xs: seq<string>, x: string, sep: string)
    ensures pre + Terminated(xs + [x], sep) == pre + Terminated(xs, sep) + x + sep
  {
    assert (xs + [x])[..|xs|] == xs;
  }

  /** Dropping the trailing separator of a non-empty terminated list leaves
      exactly the joined list ("chew last comma"). */
  lemma {:induction false} TerminatedIsJoin(xs: seq<string>, sep: string)
    requires |xs| >= 1
    ensures Terminated(xs, sep) == Join(xs, sep) + sep
  {
    if |xs| > 1 {
      var init := xs[..|xs| - 1];
      TerminatedIsJoin(init, sep);
      JoinSnoc(init, xs[|xs| - 1], sep);
      assert init + [xs[|xs| - 1]] == xs;
    }
  }

  /** Cutting the last character off `pre` followed by a non-empty list
      terminated by the one-character separator `c`. */
  lemma ChewLast(pre: string, xs: seq<string>, c: char)
    requires |xs| >= 1
    ensures var s := pre + Terminated(xs, [c]); |s| >= 1 && s[..|s| - 1] == pre + Join(xs, [c])
  {
    TerminatedIsJoin(xs, [c]);
    var s := pre + Terminated(xs, [c]);
    assert s == (pre + Join(xs, [c])) + [c];
  }

  /** Index of the first `c` in `s`. */
  function IndexOf(s: string, c: char): (i: nat)
    requires c in s
    ensures i < |s| && s[i] == c && c !in s[..i]
  {
    if s[0] == c then 0 else 1 + IndexOf(s[1..], c)
  }

  lemma {:induction false} IndexOfFirst(s: string, c: char, i: nat)
    requires i < |s| && s[i] == c && c !in s[..i]
    ensures IndexOf(s, c) == i
  {
    if s[0] != c {
      IndexOfFirst(s[1..], c, i - 1);
    }
  }

  /** The pieces of `s` between occurrences of `c` (string.Split). */
  function Split(s: string, c: char): (r: seq<string>)
    ensures |r| >= 1
    decreases |s|
  {
    if c !in s then [s] else var i := IndexOf(s, c); [s[..i]] + Split(s[i + 1..], c)
  }

  /** Splitting a joined list on a separator that no element contains gives
      the list back. */
  lemma {:induction false} SplitJoin(xs: seq<string>, c: char)
    requires |xs| >= 1
    requires forall k :: 0 <= k < |xs| ==> c !in xs[k]
    ensures Split(Join(xs, [c]), c) == xs
  {
    if |xs| > 1 {
      var rest := Join(xs[1..], [c]);
      var s := xs[0] + [c] + rest;
      assert Join(xs, [c]) == s;
      var i := |xs[0]|;
      assert s[..i] == xs[0];
      IndexOfFirst(s, c, i);
      assert s[i + 1..] == rest;
      SplitJoin(xs[1..], c);
      assert [xs[0]] + xs[1..] == xs;
    }
  }

  predicate StartsWith(s: string, p: string)
  {
    |p| <= |s| && s[..|p|] == p
  }

  predicate EndsWith(s: string, p: string)
  {
    |p| <= |s| && s[|s| - |p|..] == p
  }

  /** The surplus of a concatenation of three to seven pieces is the sum
      of theirs. The fixed arities match the literal fragments the
      generators concatenate, so each use is one small instantiation. */
  lemma Surplus3(a: string, b: string, c: string)
    ensures CloseSurplus(a + b + c) == CloseSurplus(a) + CloseSurplus(b) + CloseSurplus(c)
  {
    SurplusConcat(a, b);
    SurplusConcat(a + b, c);
  }

  lemma Surplus4(a: string, b: string, c: string, d: string)
    ensures CloseSurplus(a + b + c + d) == CloseSurplus(a) + CloseSurplus(b) + CloseSurplus(c) + CloseSurplus(d)
  {
    Surplus3(a, b, c);
    SurplusConcat(a + b + c, d);
  }

  lemma Surplus5(a: string, b: string, c: string, d: string, e: string)
    ensures CloseSurplus(a + b + c + d + e) ==
      CloseSurplus(a) + CloseSurplus(b) + CloseSurplus(c) + CloseSurplus(d) + CloseSurplus(e)
  {
    Surplus4(a, b, c, d);
    SurplusConcat(a + b + c + d, e);
  }

  lemma Surplus7(a: string, b: string, c: string, d: string, e: string, f: string, g: string)
    ensures CloseSurplus(a + b + c + d + e + f + g) ==
      CloseSurplus(a) + CloseSurplus(b) + CloseSurplus(c) + CloseSurplus(d) + CloseSurplus(e)
      + CloseSurplus(f) + CloseSurplus(g)
  {
    SurplusSum(a, b, c, d, e, f);
    SurplusConcat(a + b + c + d + e + f, g);
  }

  /** The surplus of six pieces is the sum of theirs. */
  lemma SurplusSum(a: string, b: string, c: string, d: string, e: string, f: string)
    ensures CloseSurplus(a + b + c + d + e + f) ==
      CloseSurplus(a) + CloseSurplus(b) + CloseSurplus(c) + CloseSurplus(d) + CloseSurplus(e) + CloseSurplus(f)
  {
    SurplusConcat(a, b);
    SurplusConcat(a + b, c);
    SurplusConcat(a + b + c, d);
    SurplusConcat(a + b + c + d, e);
    SurplusConcat(a + b + c + d + e, f);
  }

  /** Where the pieces of a six-part text sit. */
  lemma Framed(a: string, b: string, c: string, d: string, e: string, f: string)
    ensures StartsWith(a + b + c + d + e + f, a)
    ensures StartsWith(a + b + c + d + e + f, a + b + c)
    ensures EndsWith(a + b + c + d + e + f, e + f)
  {
    var s := a + b + c + d + e + f;
    assert s == (a + b + c) + (d + e + f);
    assert s[..|a + b + c|] == a + b + c;
    assert s[..|a|] == a;
    assert s == (a + b + c + d) + (e + f);
    assert s[|s| - |e + f|..] == e + f;
  }

  lemma StartsWithBoth(x: string, y: string, z: string)
    requires StartsWith(x, y)
    ensures StartsWith(z + x, z + y)
    ensures StartsWith(x + z, y)
  {
    assert (z + x)[..|z + y|] == z + x[..|y|];
    assert (x + z)[..|y|] == x[..|y|];
  }

  lemma EndsWithFront(x: string, y: string, z: string)
    requires EndsWith(x, y)
    ensures EndsWith(z + x, y)
  {
    assert (z + x)[|z + x| - |y|..] == x[|x| - |y|..];
  }

  lemma EndsWithTrans(s: string, x: string, a: string, b: string)
    requires x == a + b && EndsWith(s, x)
    ensures EndsWith(s, b)
  {
    assert s[|s| - |b|..] == x[|x| - |b|..];
    assert x[|x| - |b|..] == b;
  }

  /** Two texts ending in different characters at the same distance from
      the end cannot both be suffixes. */
  lemma EndsDiffer(s: string, p: string, q: string, i: nat)
    requires EndsWith(s, q) && 1 <= i <= |q| && i <= |p| && q[|q| - i] != p[|p| - i]
    ensures !EndsWith(s, p)
  {
    assert s[|s| - i] == s[|s| - |q|..][|q| - i];
    if |p| <= |s| {
      assert s[|s| - i] == s[|s| - |p|..][|p| - i];
    }
  }

  lemma {:induction false} JoinBalanced(xs: seq<string>)
    requires forall k :: 0 <= k < |xs| ==> CloseSurplus(xs[k]) == 0
    ensures CloseSurplus(Join(xs, ",")) == 0
  {
    if |xs| == 0 {
      Parenless("");
    } else if |xs| > 1 {
      JoinBalanced(xs[1..]);
      Parenless(",");
      SurplusConcat(xs[0], ",");
      SurplusConcat(xs[0] + ",", Join(xs[1..], ","));
    }
  }
}

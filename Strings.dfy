/**
 * The string helpers the criteria rely on (Hibernate's StringHelper is not part of
 * this model, so `Join`, `Repeat`, `Suffix` and `Add` are the assumed definitions),
 * plus placeholder counting and substring occurrence.
 */
module Strings {

  /** StringHelper.join: the elements of `xs` with `sep` between consecutive ones.
      Written from the right, so that appending one element is one unfolding. */
  function Join(sep: string, xs: seq<string>): string
    decreases |xs|
  {
    if |xs| == 0 then ""
    else if |xs| == 1 then xs[0]
    else Join(sep, xs[..|xs| - 1]) + sep + xs[|xs| - 1]
  }

  /** StringHelper.repeat: `k` copies of `s`, one after another. */
  function Repeat(s: string, k: nat): string
  {
    if k == 0 then "" else Repeat(s, k - 1) + s
  }

  /** `n` copies of `s` as a sequence of elements. */
  function Copies(s: string, n: nat): (r: seq<string>)
    ensures |r| == n
    ensures forall i :: 0 <= i < n ==> r[i] == s
  {
    seq(n, _ => s)
  }

  /** StringHelper.suffix: every element with `s` appended. */
  function Suffix(xs: seq<string>, s: string): (r: seq<string>)
    ensures |r| == |xs|
    ensures forall i :: 0 <= i < |xs| ==> r[i] == xs[i] + s
  {
    seq(|xs|, i requires 0 <= i < |xs| => xs[i] + s)
  }

  /** StringHelper.add: the pairs `xs[i] + op + ys[i]`, one per element of `xs`
      (the Java helper indexes `ys` by the positions of `xs`). */
  function Add(xs: seq<string>, op: string, ys: seq<string>): (r: seq<string>)
    requires |xs| <= |ys|
    ensures |r| == |xs|
    ensures forall i :: 0 <= i < |xs| ==> r[i] == xs[i] + op + ys[i]
  {
    seq(|xs|, i requires 0 <= i < |xs| => xs[i] + op + ys[i])
  }

  /** `body` wrapped in a pair of parentheses exactly when `wrap` holds. */
  function Parenthesized(body: string, wrap: bool): string
  {
    if wrap then "(" + body + ")" else body
  }

  /** Number of occurrences of the character `c` in `s`. */
  function CountChar(s: string, c: char): nat
  {
    if |s| == 0 then 0 else (if s[0] == c then 1 else 0) + CountChar(s[1..], c)
  }

  /** Does `t` occur in `s` starting at position `p`? */
  predicate MatchesAt(s: string, t: string, p: int)
  {
    0 <= p && p + |t| <= |s| && forall k :: 0 <= k < |t| ==> s[p + k] == t[k]
  }

  /** java.lang.String.contains: `t` occurs somewhere in `s`. */
  predicate Contains(s: string, t: string)
  {
    exists p | 0 <= p <= |s| - |t| :: MatchesAt(s, t, p)
  }

  lemma {:induction false} CountCharConcat(a: string, b: string, c: char)
    ensures CountChar(a + b, c) == CountChar(a, c) + CountChar(b, c)
    decreases |a|
  {
    if |a| > 0 {
      assert (a + b)[1..] == a[1..] + b;
      CountCharConcat(a[1..], b, c);
    } else {
      assert a + b == b;
    }
  }

  lemma {:induction false} CountCharAbsent(s: string, c: char)
    requires c !in s
    ensures CountChar(s, c) == 0
    decreases |s|
  {
    if |s| > 0 {
      assert s[0] != c;
      assert forall i :: 0 <= i < |s| - 1 ==> s[1..][i] == s[i + 1];
      CountCharAbsent(s[1..], c);
    }
  }

  /** Placeholder arithmetic of a join: if every element holds `k` copies of `c`,
      the joined text holds `k` per element plus those of the separators. */
  lemma {:induction false} CountCharJoin(sep: string, xs: seq<string>, c: char, k: nat)
    requires |xs| >= 1
    requires forall i :: 0 <= i < |xs| ==> CountChar(xs[i], c) == k
    ensures CountChar(Join(sep, xs), c) == |xs| * k + (|xs| - 1) * CountChar(sep, c)
    decreases |xs|
  {
    if |xs| > 1 {
      var n := |xs|;
      var init := xs[..n - 1];
      assert forall i :: 0 <= i < |init| ==> init[i] == xs[i];
      CountCharJoin(sep, init, c, k);
      CountCharConcat(Join(sep, init) + sep, xs[n - 1], c);
      CountCharConcat(Join(sep, init), sep, c);
      var s := CountChar(sep, c);
      calc {
        CountChar(Join(sep, xs), c);
        (n - 1) * k + (n - 2) * s + s + k;
        { assert (n - 1) * k + k == n * k; assert (n - 2) * s + s == (n - 1) * s; }
        n * k + (n - 1) * s;
      }
    }
  }

  /** Joining `n >= 1` copies of `g` with `sep` is what the Java code builds:
      `n - 1` copies of `g + sep` followed by one `g`. */
  lemma {:induction false} JoinCopiesByRepeat(g: string, sep: string, n: nat)
    requires n >= 1
    ensures Join(sep, Copies(g, n)) == Repeat(g + sep, n - 1) + g
    decreases n
  {
    if n > 1 {
      assert Copies(g, n)[..n - 1] == Copies(g, n - 1);
      JoinCopiesByRepeat(g, sep, n - 1);
      assert Repeat(g + sep, n - 1) == Repeat(g + sep, n - 2) + (g + sep);
    }
  }

  /** Appending to the last element appends to the joined text. */
  lemma JoinExtendLast(sep: string, zs: seq<string>, z: string, s: string)
    ensures Join(sep, zs + [z + s]) == Join(sep, zs + [z]) + s
  {
    if |zs| > 0 {
      assert (zs + [z + s])[..|zs|] == zs;
      assert (zs + [z])[..|zs|] == zs;
    }
  }

  /** Joining with `s + sep` is joining with `sep` after suffixing every element but the
      last with `s`. */
  lemma {:induction false} JoinBySuffixedSeparator(xs: seq<string>, s: string, sep: string)
    requires |xs| >= 1
    ensures Join(s + sep, xs)
         == Join(sep, Suffix(xs[..|xs| - 1], s) + [xs[|xs| - 1]])
    decreases |xs|
  {
    var n := |xs|;
    if n > 1 {
      var init := xs[..n - 1];
      assert init[..n - 2] == xs[..n - 2];
      JoinBySuffixedSeparator(init, s, sep);
      // Join(s + sep, init) == Join(sep, Suffix(xs[..n-2], s) + [xs[n-2]])
      assert Suffix(init, s) == Suffix(xs[..n - 2], s) + [xs[n - 2] + s];
      JoinExtendLast(sep, Suffix(xs[..n - 2], s), xs[n - 2], s);
      var ys := Suffix(init, s) + [xs[n - 1]];
      assert ys[..|ys| - 1] == Suffix(init, s);
    }
  }

  /** The shape of the expanded IN list's conjunction: joining with `s + sep` and
      appending `t` is joining with `sep` after suffixing every element but the last
      with `s` and the last with `t`. */
  lemma JoinWithTrailing(xs: seq<string>, s: string, sep: string, sepFull: string, t: string)
    requires |xs| >= 1 && sepFull == s + sep
    ensures Join(sepFull, xs) + t
         == Join(sep, Suffix(xs[..|xs| - 1], s) + [xs[|xs| - 1] + t])
  {
    var init := Suffix(xs[..|xs| - 1], s);
    var last := xs[|xs| - 1];
    JoinBySuffixedSeparator(xs, s, sep);
    JoinExtendLast(sep, init, last, t);
  }

  /** No column name holds a `?`, so every `?` in the text is a placeholder. */
  predicate NoMarksIn(columns: seq<string>)
  {
    forall i :: 0 <= i < |columns| ==> '?' !in columns[i]
  }

  /** Joining texts free of `c` with a separator free of `c` gives a text free of `c`. */
  lemma JoinCountAbsent(sep: string, xs: seq<string>, c: char)
    requires c !in sep
    requires forall i :: 0 <= i < |xs| ==> c !in xs[i]
    ensures CountChar(Join(sep, xs), c) == 0
  {
    if |xs| >= 1 {
      forall i | 0 <= i < |xs| ensures CountChar(xs[i], c) == 0 {
        CountCharAbsent(xs[i], c);
      }
      CountCharAbsent(sep, c);
      CountCharJoin(sep, xs, c, 0);
    }
  }

  /** Parentheses add no other character. */
  lemma ParenthesizedCount(body: string, wrap: bool, c: char)
    requires c != '(' && c != ')'
    ensures CountChar(Parenthesized(body, wrap), c) == CountChar(body, c)
  {
    if wrap {
      CountCharConcat("(" + body, ")", c);
      CountCharConcat("(", body, c);
    }
  }

  /** The joined text begins with the first element. */
  lemma {:induction false} JoinHead(sep: string, xs: seq<string>)
    requires |xs| >= 1
    ensures |Join(sep, xs)| >= |xs[0]| && Join(sep, xs)[..|xs[0]|] == xs[0]
    decreases |xs|
  {
    if |xs| > 1 {
      var init := xs[..|xs| - 1];
      JoinHead(sep, init);
      var j := Join(sep, init);
      assert Join(sep, xs) == j + (sep + xs[|xs| - 1]);
      assert Join(sep, xs)[..|xs[0]|] == j[..|xs[0]|];
    }
  }

  /** The joined text ends with the last element. */
  lemma JoinLast(sep: string, xs: seq<string>)
    requires |xs| >= 1
    ensures var j, z := Join(sep, xs), xs[|xs| - 1]; |j| >= |z| && j[|j| - |z|..] == z
  {
    if |xs| > 1 {
      var j := Join(sep, xs[..|xs| - 1]) + sep;
      assert Join(sep, xs) == j + xs[|xs| - 1];
    }
  }

  /** A text that does not itself open with `(` opens with one exactly when wrapped. */
  lemma ParenthesizedOpens(body: string, wrap: bool)
    requires |body| >= 1 && body[0] != '('
    ensures Parenthesized(body, wrap)[0] == '(' <==> wrap
  {
  }

  /** A text that does not itself close with `)` closes with one exactly when wrapped. */
  lemma ParenthesizedCloses(body: string, wrap: bool)
    requires |body| >= 1 && body[|body| - 1] != ')'
    ensures var p := Parenthesized(body, wrap); p[|p| - 1] == ')' <==> wrap
  {
  }
}

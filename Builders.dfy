/**
 * java.lang.StringBuilder, reduced to the text it holds. The criteria only ever
 * append to it; `AppendRepeat` and `AppendJoin` are the builder-taking overloads of
 * StringHelper.repeat and StringHelper.join.
 */
module Builders {
  import opened Strings

  class Builder {
    var contents: string

    constructor ()
      ensures contents == ""
    {
      contents := "";
    }

    function ToString(): string
      reads this
    {
      contents
    }

    method Append(s: string)
      modifies this
      ensures contents == old(contents) + s
    {
      contents := contents + s;
    }

    /** StringHelper.repeat(s, k, builder): appends `k` copies of `s`. */
    method AppendRepeat(s: string, k: nat)
      modifies this
      ensures contents == old(contents) + Repeat(s, k)
    {
      var i := 0;
      while i < k
        invariant 0 <= i <= k
        invariant contents == old(contents) + Repeat(s, i)
      {
        Append(s);
        i := i + 1;
      }
    }

    /** StringHelper.join(sep, xs, builder): appends the first element, then
        `sep` and the next element for each further one. */
    method AppendJoin(sep: string, xs: seq<string>)
      modifies this
      ensures contents == old(contents) + Join(sep, xs)
    {
      if |xs| == 0 {
        return;
      }
      Append(xs[0]);
      var i := 1;
      while i < |xs|
        invariant 1 <= i <= |xs|
        invariant contents == old(contents) + Join(sep, xs[..i])
      {
        assert xs[..i + 1][..i] == xs[..i];
        Append(sep);
        Append(xs[i]);
        i := i + 1;
      }
      assert xs[..|xs|] == xs;
    }
  }
}

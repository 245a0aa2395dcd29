/**
 * CustomCharSequence: a read-only window (`chars`, `offset`, `length`) onto a char
 * array, shared rather than copied, with a substring search adapted from
 * java.lang.String.indexOf.
 */
module CharSequences {
  import opened Strings

  // ---------------------------------------------------------------------------
  // What the search promises.

  function Max0(x: int): nat
  {
    if x < 0 then 0 else x
  }

  /** The first position at or after `from` where `target` occurs in `source`, or -1. */
  function FirstMatch(source: string, target: string, from: nat): int
    decreases |source| + 1 - from
  {
    if from + |target| > |source| then -1
    else if MatchesAt(source, target, from) then from
    else FirstMatch(source, target, from + 1)
  }

  /** String.indexOf(source, target, fromIndex) on plain sequences: an empty target is
      found at `fromIndex` clamped to `[0, |source|]`; otherwise the first occurrence
      at or after `max(fromIndex, 0)`, or -1. */
  function IndexOfContract(source: string, target: string, fromIndex: int): int
  {
    if fromIndex >= |source| then (if |target| == 0 then |source| else -1)
    else if |target| == 0 then Max0(fromIndex)
    else FirstMatch(source, target, Max0(fromIndex))
  }

  /** FirstMatch is the least matching position at or after `from`, and -1 exactly
      when there is none. */
  lemma {:induction false} FirstMatchIsLeast(source: string, target: string, from: nat)
    ensures var r := FirstMatch(source, target, from);
      && (r == -1 || (from <= r && MatchesAt(source, target, r)))
      && (forall p :: from <= p && (r == -1 || p < r) ==> !MatchesAt(source, target, p))
    decreases |source| + 1 - from
  {
    if from + |target| > |source| {
    } else if MatchesAt(source, target, from) {
    } else {
      FirstMatchIsLeast(source, target, from + 1);
    }
  }

  /** The properties of indexOf in terms of positions: a result `r >= 0` of a
      non-empty search at `fromIndex < |source|` is a match no earlier than
      `fromIndex`, no match lies between `max(fromIndex, 0)` and `r`, and -1 means
      there is no match at or after `max(fromIndex, 0)`. */
  lemma IndexOfFindsFirst(source: string, target: string, fromIndex: int)
    requires fromIndex < |source| && |target| > 0
    ensures var r := IndexOfContract(source, target, fromIndex);
      && (r >= 0 ==> fromIndex <= r && r + |target| <= |source|
                     && (forall k :: 0 <= k < |target| ==> source[r + k] == target[k]))
      && (r == -1 || r >= 0)
      && (forall p :: Max0(fromIndex) <= p && (r == -1 || p < r) ==> !MatchesAt(source, target, p))
  {
    FirstMatchIsLeast(source, target, Max0(fromIndex));
  }

  /** String.contains(t) is indexOf(t) >= 0. */
  lemma ContainsIsIndexOf(s: string, t: string)
    ensures Contains(s, t) <==> IndexOfContract(s, t, 0) >= 0
  {
    if |t| == 0 {
      assert MatchesAt(s, t, 0);
    } else if |s| > 0 {
      FirstMatchIsLeast(s, t, 0);
      if IndexOfContract(s, t, 0) >= 0 {
        var p := IndexOfContract(s, t, 0);
        assert 0 <= p <= |s| - |t| && MatchesAt(s, t, p);
      }
    } else {
      assert !Contains(s, t);
    }
  }

  /** No match of `t` in `s` starts in `[lo, hi)`. */
  predicate NoMatchIn(s: string, t: string, lo: int, hi: int)
  {
    forall p :: lo <= p < hi ==> !MatchesAt(s, t, p)
  }

  lemma NoMatchExtend(s: string, t: string, lo: int, hi: int)
    requires NoMatchIn(s, t, lo, hi) && !MatchesAt(s, t, hi)
    ensures NoMatchIn(s, t, lo, hi + 1)
  {
  }

  /** A match at `p` with none in `[from, p)` is the first one. */
  lemma FirstMatchAt(s: string, t: string, from: nat, p: int)
    requires from <= p && NoMatchIn(s, t, from, p) && MatchesAt(s, t, p)
    ensures FirstMatch(s, t, from) == p
  {
    FirstMatchIsLeast(s, t, from);
  }

  /** No match in `[from, hi)` and no room for one at `hi` or later: nothing is found. */
  lemma FirstMatchNone(s: string, t: string, from: nat, hi: int)
    requires NoMatchIn(s, t, from, hi) && hi + |t| > |s|
    ensures FirstMatch(s, t, from) == -1
  {
    FirstMatchIsLeast(s, t, from);
  }

  /** A differing character at array position `j` rules out the match that would start
      at array position `i` of the source window. */
  lemma MismatchInWindow(source: array<char>, so: int, sc: int,
                         target: array<char>, to: int, tc: int, i: int, j: int)
    requires WindowFits(source.Length, so, sc) && WindowFits(target.Length, to, tc)
    requires so <= i <= j < so + sc && j - i < tc
    requires source[j] != target[to + (j - i)]
    ensures !MatchesAt(source[so..so + sc], target[to..to + tc], i - so)
  {
    var S := source[so..so + sc];
    var T := target[to..to + tc];
    assert S[i - so + (j - i)] == source[j];
    assert T[j - i] == target[to + (j - i)];
  }

  /** Agreement on all `tc` characters from array position `i` is a match at `i - so`. */
  lemma MatchInWindow(source: array<char>, so: int, sc: int,
                      target: array<char>, to: int, tc: int, i: int)
    requires WindowFits(source.Length, so, sc) && WindowFits(target.Length, to, tc)
    requires so <= i && i + tc <= so + sc
    requires forall p :: i <= p < i + tc ==> source[p] == target[to + (p - i)]
    ensures MatchesAt(source[so..so + sc], target[to..to + tc], i - so)
  {
    var S := source[so..so + sc];
    var T := target[to..to + tc];
    forall q | 0 <= q < tc
      ensures S[i - so + q] == T[q]
    {
      assert source[i + q] == target[to + (i + q - i)];
    }
  }

  // ---------------------------------------------------------------------------
  // The view.

  /** The constructor's outcome: the view, or the IllegalArgumentException it throws. */
  datatype Checked<T> = Created(sequence: T) | IllegalArgument

  /** The constructor's argument check, as a condition for acceptance. */
  predicate WindowFits(arrayLength: int, offset: int, length: int)
  {
    !(offset < 0 || length < 0 || offset + length > arrayLength)
  }

  class CustomCharSequence {
    const chars: array<char>
    const offset: int
    const length: int

    /** Every view the constructors make lies inside its array. */
    predicate Valid()
    {
      WindowFits(chars.Length, offset, length)
    }

    /** CustomCharSequence(chars, offset, length) once its check has passed. */
    constructor (chars: array<char>, offset: int, length: int)
      requires WindowFits(chars.Length, offset, length)
      ensures this.chars == chars && this.offset == offset && this.length == length
      ensures Valid()
    {
      this.chars := chars;
      this.offset := offset;
      this.length := length;
    }

    /** CustomCharSequence(chars): the whole array. */
    constructor FromArray(chars: array<char>)
      ensures this.chars == chars && offset == 0 && length == chars.Length
      ensures Valid()
    {
      this.chars := chars;
      this.offset := 0;
      this.length := chars.Length;
    }

    /** CustomCharSequence(chars, offset, length) with the check that rejects a negative
        offset, a negative length and a window running past the array. */
    static method Create(chars: array<char>, offset: int, length: int) returns (r: Checked<CustomCharSequence>)
      ensures r.Created? <==> (0 <= offset && 0 <= length && offset + length <= chars.Length)
      ensures r.Created? ==>
        r.sequence.chars == chars && r.sequence.offset == offset && r.sequence.Length() == length && r.sequence.Valid()
    {
      if offset < 0 || length < 0 || offset + length > chars.Length {
        return IllegalArgument;
      }
      var s := new CustomCharSequence(chars, offset, length);
      return Created(s);
    }

    function Length(): (r: int)
      ensures Valid() ==> 0 <= r <= chars.Length - offset
    {
      length
    }

    /** charAt(index) reads the array at `offset + index`; it does not check `index`
        against the length, only the array does. */
    function CharAt(index: int): (c: char)
      reads chars
      requires 0 <= offset + index < chars.Length
      ensures c == chars[offset + index]
      ensures Valid() && 0 <= index < length ==> c == ToString()[index]
    {
      chars[offset + index]
    }

    /** toString(): the characters of the window. */
    function ToString(): (s: string)
      reads chars
      requires Valid()
      ensures |s| == length
      ensures forall i :: 0 <= i < length ==> s[i] == chars[offset + i]
    {
      chars[offset..offset + length]
    }

    /** indexOf(sequence): where `sequence` first occurs in this view, relative to
        this view's start. */
    method IndexOf(sequence: CustomCharSequence) returns (r: int)
      requires Valid() && sequence.Valid()
      ensures r == IndexOfContract(ToString(), sequence.ToString(), 0)
    {
      r := IndexOfChars(chars, offset, length, sequence.chars, sequence.offset, sequence.length, 0);
    }

    /** The static indexOf over two (array, offset, count) windows. */
    static method IndexOfChars(source: array<char>, sourceOffset: int, sourceCount: int,
                               target: array<char>, targetOffset: int, targetCount: int,
                               fromIndex: int) returns (r: int)
      requires WindowFits(source.Length, sourceOffset, sourceCount)
      requires WindowFits(target.Length, targetOffset, targetCount)
      ensures r == IndexOfContract(source[sourceOffset..sourceOffset + sourceCount],
                                   target[targetOffset..targetOffset + targetCount], fromIndex)
    {
      ghost var S := source[sourceOffset..sourceOffset + sourceCount];
      ghost var T := target[targetOffset..targetOffset + targetCount];
      if fromIndex >= sourceCount {
        r := if targetCount == 0 then sourceCount else -1;
        return;
      }
      var from := fromIndex;
      if from < 0 {
        from := 0;
      }
      if targetCount == 0 {
        r := from;
        return;
      }
      var first := target[targetOffset];
      var max := sourceOffset + (sourceCount - targetCount);

      var i := sourceOffset + from;
      while i <= max
        invariant sourceOffset + from <= i
        invariant NoMatchIn(S, T, from, i - sourceOffset)
        decreases max - i
      {
        // Look for the first character.
        if source[i] != first {
          MismatchInWindow(source, sourceOffset, sourceCount, target, targetOffset, targetCount, i, i);
          NoMatchExtend(S, T, from, i - sourceOffset);
          i := i + 1;
          while i <= max && source[i] != first
            invariant sourceOffset + from < i <= max + 1
            invariant NoMatchIn(S, T, from, i - sourceOffset)
            decreases max - i
          {
            MismatchInWindow(source, sourceOffset, sourceCount, target, targetOffset, targetCount, i, i);
            NoMatchExtend(S, T, from, i - sourceOffset);
            i := i + 1;
          }
        }
        // Found the first character: compare the rest.
        if i <= max {
          var j := CompareRest(source, i, target, targetOffset, targetCount);
          var end := i + targetCount;
          if j == end {
            MatchInWindow(source, sourceOffset, sourceCount, target, targetOffset, targetCount, i);
            FirstMatchAt(S, T, from, i - sourceOffset);
            r := i - sourceOffset;
            return;
          }
          MismatchInWindow(source, sourceOffset, sourceCount, target, targetOffset, targetCount, i, j);
        } else {
          // Past the last start position: the target no longer fits.
          assert !MatchesAt(S, T, i - sourceOffset);
        }
        NoMatchExtend(S, T, from, i - sourceOffset);
        i := i + 1;
      }
      FirstMatchNone(S, T, from, i - sourceOffset);
      r := -1;
    }

    /** The inner loop of indexOf: starting after a matching first character at `i`,
        advances `j` while the source agrees with the target, stopping at the first
        disagreement or after the whole target. */
    static method CompareRest(source: array<char>, i: int, target: array<char>, targetOffset: int, targetCount: int)
      returns (j: int)
      requires 0 <= i && i + targetCount <= source.Length && 1 <= targetCount
      requires WindowFits(target.Length, targetOffset, targetCount)
      requires source[i] == target[targetOffset]
      ensures i + 1 <= j <= i + targetCount
      ensures forall p :: i <= p < j ==> source[p] == target[targetOffset + (p - i)]
      ensures j < i + targetCount ==> source[j] != target[targetOffset + (j - i)]
    {
      j := i + 1;
      var end := j + targetCount - 1;
      var k := targetOffset + 1;
      while j < end && source[j] == target[k]
        invariant i + 1 <= j <= end
        invariant k == targetOffset + (j - i)
        invariant forall p :: i <= p < j ==> source[p] == target[targetOffset + (p - i)]
        decreases end - j
      {
        j := j + 1;
        k := k + 1;
      }
    }

    /** subSequence(start, end): a view of the same array from `offset + start`, of
        length `end - start`, subject to the constructor's check. */
    method SubSequence(start: int, end: int) returns (r: Checked<CustomCharSequence>)
      ensures r.Created? <==> WindowFits(chars.Length, offset + start, end - start)
      ensures r.Created? ==>
        r.sequence.chars == chars && r.sequence.offset == offset + start && r.sequence.length == end - start && r.sequence.Valid()
      ensures Valid() && 0 <= start <= end <= length ==>
                r.Created? && r.sequence.ToString() == ToString()[start..end]
    {
      r := Create(chars, start + offset, end - start);
      if r.Created? && Valid() && 0 <= start <= end <= length {
        assert r.sequence.ToString() == chars[offset + start..offset + end];
      }
    }

    /** substring(start, end): the same view as subSequence(start, end). */
    method Substring(start: int, end: int) returns (r: Checked<CustomCharSequence>)
      ensures r.Created? <==> WindowFits(chars.Length, offset + start, end - start)
      ensures r.Created? ==>
        r.sequence.chars == chars && r.sequence.offset == offset + start && r.sequence.length == end - start && r.sequence.Valid()
      ensures Valid() && 0 <= start <= end <= length ==>
                r.Created? && r.sequence.ToString() == ToString()[start..end]
    {
      r := Create(chars, start + offset, end - start);
      if r.Created? && Valid() && 0 <= start <= end <= length {
        assert r.sequence.ToString() == chars[offset + start..offset + end];
      }
    }

    /** substring(start): the rest of the view from `start`. */
    method SubstringFrom(start: int) returns (r: Checked<CustomCharSequence>)
      ensures r.Created? <==> WindowFits(chars.Length, offset + start, length - start)
      ensures r.Created? ==>
        r.sequence.chars == chars && r.sequence.offset == offset + start && r.sequence.length == length - start && r.sequence.Valid()
      ensures Valid() && 0 <= start <= length ==>
                r.Created? && r.sequence.ToString() == ToString()[start..]
    {
      r := Create(chars, start + offset, length - start);
      if r.Created? && Valid() && 0 <= start <= length {
        assert r.sequence.ToString() == chars[offset + start..offset + length];
      }
    }
  }
}

/** PHP's `explode` on a one-character separator, the `implode` that undoes
    it, and substring containment for reasoning about log messages. */
module Explode {

  /** The pieces of `s` between occurrences of `sep`, in order, as
      `explode(sep, s)` returns them: always at least one piece. */
  function Split(s: string, sep: char): (parts: seq<string>)
    ensures |parts| >= 1
    decreases |s|
  {
    if |s| == 0 then [""]
    else if s[0] == sep then [""] + Split(s[1..], sep)
    else
      var rest := Split(s[1..], sep);
      [[s[0]] + rest[0]] + rest[1..]
  }

  /** `implode(sep, parts)`: the pieces glued back with `sep` between them. */
  function Join(parts: seq<string>, sep: char): string
    requires |parts| >= 1
    decreases |parts|
  {
    if |parts| == 1 then parts[0] else parts[0] + [sep] + Join(parts[1..], sep)
  }

  /** No piece of the split contains the separator. */
  lemma {:induction false} SplitPiecesFree(s: string, sep: char)
    ensures forall k :: 0 <= k < |Split(s, sep)| ==> sep !in Split(s, sep)[k]
    decreases |s|
  {
    if |s| > 0 {
      SplitPiecesFree(s[1..], sep);
    }
  }

  /** Joining the pieces back gives the original string. */
  lemma {:induction false} JoinSplit(s: string, sep: char)
    ensures Join(Split(s, sep), sep) == s
    decreases |s|
  {
    if |s| > 0 {
      JoinSplit(s[1..], sep);
      var rest := Split(s[1..], sep);
      if s[0] == sep {
        assert Split(s, sep)[1..] == rest;
      } else if |rest| == 1 {
        assert Join(Split(s, sep), sep) == [s[0]] + rest[0];
      } else {
        var parts := Split(s, sep);
        assert parts[1..] == rest[1..];
        calc {
          Join(parts, sep);
          ([s[0]] + rest[0]) + [sep] + Join(rest[1..], sep);
          [s[0]] + (rest[0] + [sep] + Join(rest[1..], sep));
          [s[0]] + Join(rest, sep);
        }
      }
    }
  }

  /** A string holding the separator splits into at least two pieces, so
      the piece at index 1 exists. */
  lemma {:induction false} SplitAtLeastTwo(s: string, sep: char)
    requires sep in s
    ensures |Split(s, sep)| >= 2
    decreases |s|
  {
    if s[0] != sep {
      SplitAtLeastTwo(s[1..], sep);
    }
  }

  /** A prefix free of the separator only lengthens the first piece. */
  lemma {:induction false} SplitFreePrefix(x: string, y: string, sep: char)
    requires sep !in x
    ensures Split(x + y, sep)[0] == x + Split(y, sep)[0]
    ensures Split(x + y, sep)[1..] == Split(y, sep)[1..]
    decreases |x|
  {
    if |x| > 0 {
      assert (x + y)[1..] == x[1..] + y;
      SplitFreePrefix(x[1..], y, sep);
      assert [x[0]] + (x[1..] + Split(y, sep)[0]) == x + Split(y, sep)[0];
    } else {
      assert x + y == y;
    }
  }

  /** The pieces of `x + [sep] + y`, with `x` free of the separator, are `x`
      followed by the pieces of `y`. */
  lemma SplitAtFirst(x: string, y: string, sep: char)
    requires sep !in x
    ensures Split(x + [sep] + y, sep) == [x] + Split(y, sep)
  {
    var z := [sep] + y;
    assert x + [sep] + y == x + z;
    assert z[1..] == y;
    assert Split(z, sep) == [""] + Split(y, sep);
    SplitFreePrefix(x, z, sep);
    var parts := Split(x + z, sep);
    assert parts[0] == x + "" == x;
    assert parts[1..] == Split(y, sep);
    assert parts == [parts[0]] + parts[1..];
  }

  /** `t` occurs in `s` starting at index `i`. */
  predicate OccursAt(s: string, t: string, i: int) {
    0 <= i <= |s| - |t| && s[i..i + |t|] == t
  }

  /** `t` occurs in `s` as a contiguous substring. */
  ghost predicate Mentions(s: string, t: string) {
    exists i :: OccursAt(s, t, i)
  }

  lemma MentionsEnd(a: string, t: string)
    ensures Mentions(a + t, t)
  {
    assert OccursAt(a + t, t, |a|);
  }

  lemma MentionsExtend(s: string, t: string, u: string)
    requires Mentions(s, t)
    ensures Mentions(s + u, t)
  {
    var i :| OccursAt(s, t, i);
    assert (s + u)[i..i + |t|] == s[i..i + |t|];
    assert OccursAt(s + u, t, i);
  }

  lemma MentionsMiddle(a: string, t: string, b: string)
    ensures Mentions(a + t + b, t)
  {
    var s := a + t + b;
    assert OccursAt(s, t, |a|);
  }
}

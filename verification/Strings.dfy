/** Cutting and joining strings at a mark. */
module Strings {
  /** What comes before the first mark. */
  function Before(s: string, mark: char): string {
    if s == "" || s[0] == mark then "" else [s[0]] + Before(s[1..], mark)
  }

  /** What follows the first mark. */
  function After(s: string, mark: char): (r: string)
    ensures s != "" ==> |r| < |s|
  {
    if s == "" then "" else if s[0] == mark then s[1..] else After(s[1..], mark)
  }

  predicate StartsWith(s: string, start: string) {
    |start| <= |s| && s[..|start|] == start
  }

  predicate EndsWith(s: string, end: string) {
    |end| <= |s| && s[|s| - |end|..] == end
  }

  /** The parts between marks; a string without a mark is one part. */
  function Split(s: string, mark: char): (parts: seq<string>)
    ensures |parts| >= 1
    decreases |s|
  {
    if mark in s then [Before(s, mark)] + Split(After(s, mark), mark) else [s]
  }

  function Join(parts: seq<string>, mark: char): string
    requires |parts| >= 1
  {
    if |parts| == 1 then parts[0] else parts[0] + [mark] + Join(parts[1..], mark)
  }

  lemma {:induction false} CutAt(s: string, mark: char)
    requires mark in s
    ensures s == Before(s, mark) + [mark] + After(s, mark) && mark !in Before(s, mark)
  {
    if s[0] != mark {
      CutAt(s[1..], mark);
      assert s == [s[0]] + s[1..];
    }
  }

  lemma {:induction false} CutBack(a: string, mark: char, b: string)
    requires mark !in a
    ensures Before(a + [mark] + b, mark) == a && After(a + [mark] + b, mark) == b
  {
    var s := a + [mark] + b;
    if a == "" {
      assert s[0] == mark && s[1..] == b;
    } else {
      assert s[0] == a[0] && s[1..] == a[1..] + [mark] + b;
      CutBack(a[1..], mark, b);
    }
  }

  lemma {:induction false} JoinSplit(s: string, mark: char)
    ensures Join(Split(s, mark), mark) == s
    decreases |s|
  {
    if mark in s {
      CutAt(s, mark);
      JoinSplit(After(s, mark), mark);
      assert Split(s, mark)[1..] == Split(After(s, mark), mark);
    }
  }

  lemma {:induction false} SplitJoin(parts: seq<string>, mark: char)
    requires |parts| >= 1 && forall i | 0 <= i < |parts| :: mark !in parts[i]
    ensures Split(Join(parts, mark), mark) == parts
  {
    if |parts| > 1 {
      SplitJoin(parts[1..], mark);
      CutBack(parts[0], mark, Join(parts[1..], mark));
      assert parts == [parts[0]] + parts[1..];
    } else {
      assert parts == [parts[0]];
    }
  }

  lemma {:induction false} SplitHasNoMark(s: string, mark: char)
    ensures forall i | 0 <= i < |Split(s, mark)| :: mark !in Split(s, mark)[i]
    decreases |s|
  {
    if mark in s {
      CutAt(s, mark);
      SplitHasNoMark(After(s, mark), mark);
    }
  }
}

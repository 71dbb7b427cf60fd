/** Options, results and the two string operations several components share. */
module Text {

  datatype Option<+T> = None | Some(value: T)

  datatype Result<+T, +E> = Ok(value: T) | Err(error: E)

  predicate AlphaNumeric(c: char)
  {
    'A' <= c <= 'Z' || 'a' <= c <= 'z' || '0' <= c <= '9'
  }

  /** `sep.join(parts)` for a one-character separator. */
  function Join(sep: char, parts: seq<string>): string
  {
    if |parts| == 0 then ""
    else if |parts| == 1 then parts[0]
    else parts[0] + [sep] + Join(sep, parts[1..])
  }

  /** `s.split(sep)`: never empty, one part more than there are separators. */
  function Split(sep: char, s: string): (parts: seq<string>)
    ensures |parts| >= 1
  {
    if s == "" then [""]
    else
      var rest := Split(sep, s[1..]);
      if s[0] == sep then [""] + rest else [[s[0]] + rest[0]] + rest[1..]
  }

  ghost predicate AllFree(sep: char, parts: seq<string>)
  {
    forall i :: 0 <= i < |parts| ==> sep !in parts[i]
  }

  /** Every part but the last is free of the separator. */
  ghost predicate InitFree(sep: char, parts: seq<string>)
  {
    forall i :: 0 <= i < |parts| - 1 ==> sep !in parts[i]
  }

  lemma {:induction false} SplitFree(sep: char, s: string)
    ensures AllFree(sep, Split(sep, s))
  {
    if s != "" {
      SplitFree(sep, s[1..]);
    }
  }

  lemma {:induction false} SplitHead(sep: char, head: string, tail: string)
    requires sep !in head
    ensures Split(sep, head + [sep] + tail) == [head] + Split(sep, tail)
  {
    var s := head + [sep] + tail;
    if head == "" {
      assert s[1..] == tail;
    } else {
      assert s[1..] == head[1..] + [sep] + tail;
      SplitHead(sep, head[1..], tail);
      assert [head[0]] + head[1..] == head;
    }
  }

  lemma {:induction false} SplitWhole(sep: char, s: string)
    requires sep !in s
    ensures Split(sep, s) == [s]
  {
    if s != "" {
      SplitWhole(sep, s[1..]);
      assert [s[0]] + s[1..] == s;
    }
  }

  /** Splitting undoes joining. */
  lemma {:induction false} SplitJoin(sep: char, parts: seq<string>)
    requires |parts| >= 1 && AllFree(sep, parts)
    ensures Split(sep, Join(sep, parts)) == parts
  {
    if |parts| == 1 {
      SplitWhole(sep, parts[0]);
    } else {
      SplitJoin(sep, parts[1..]);
      SplitHead(sep, parts[0], Join(sep, parts[1..]));
    }
  }

  /** A separator-free head is delimited by the first separator. */
  lemma HeadUnique(sep: char, x: string, u: string, y: string, v: string)
    requires sep !in x && sep !in y
    requires x + [sep] + u == y + [sep] + v
    ensures x == y && u == v
  {
    SplitHead(sep, x, u);
    SplitHead(sep, y, v);
    assert x == ([x] + Split(sep, u))[0] == ([y] + Split(sep, v))[0] == y;
    assert u == (x + [sep] + u)[|x| + 1..] && v == (y + [sep] + v)[|y| + 1..];
  }

  /** Joining is injective on lists of one length whose parts, the last excepted, avoid the separator. */
  lemma {:induction false} JoinInjective(sep: char, a: seq<string>, b: seq<string>)
    requires |a| == |b|
    requires InitFree(sep, a) && InitFree(sep, b)
    requires Join(sep, a) == Join(sep, b)
    ensures a == b
    decreases |a|
  {
    if |a| > 1 {
      HeadUnique(sep, a[0], Join(sep, a[1..]), b[0], Join(sep, b[1..]));
      JoinInjective(sep, a[1..], b[1..]);
      assert a == [a[0]] + a[1..] && b == [b[0]] + b[1..];
    }
  }
}

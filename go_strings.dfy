/**
 * The few functions of Go's `strings` package that the builder relies on,
 * over strings as sequences of characters. Each function carries a light
 * contract; the facts that characterise it (a split joins back to its input,
 * an index is the first occurrence, ...) are lemmas, called where needed.
 */
module GoStrings {

  /** `sub` occurs in `s` starting at index `i`. */
  predicate OccursAt(s: string, sub: string, i: int) {
    0 <= i && i + |sub| <= |s| && s[i..i + |sub|] == sub
  }

  /** strings.Contains */
  predicate Contains(s: string, sub: string) {
    exists i :: 0 <= i <= |s| - |sub| && OccursAt(s, sub, i)
  }

  /** strings.HasPrefix */
  predicate HasPrefix(s: string, prefix: string) {
    prefix <= s
  }

  /** strings.HasSuffix */
  predicate HasSuffix(s: string, suffix: string) {
    |suffix| <= |s| && s[|s| - |suffix|..] == suffix
  }

  /** strings.Index: the first index at which `sub` occurs in `s`, or -1. */
  function Index(s: string, sub: string): (r: int)
    ensures r == -1 || (0 <= r && OccursAt(s, sub, r))
    decreases |s|
  {
    if |s| < |sub| then -1
    else if sub <= s then 0
    else
      var r := Index(s[1..], sub);
      if r < 0 then -1
      else
        assert s[1..][r..r + |sub|] == s[r + 1..r + 1 + |sub|];
        r + 1
  }

  /** No occurrence of `sub` starts before the index Index returns. */
  lemma {:induction false} IndexFirst(s: string, sub: string, j: int)
    requires 0 <= j && (Index(s, sub) < 0 || j < Index(s, sub))
    ensures !OccursAt(s, sub, j)
    decreases |s|
  {
    if |s| >= |sub| && !(sub <= s) && j > 0 {
      IndexFirst(s[1..], sub, j - 1);
      if j + |sub| <= |s| {
        assert s[1..][j - 1..j - 1 + |sub|] == s[j..j + |sub|];
      }
    }
  }

  /** strings.IndexByte: the first index of `c` in `s`, or -1. */
  function IndexOfChar(s: string, c: char): (r: int)
    ensures r == -1 || (0 <= r < |s| && s[r] == c)
  {
    if |s| == 0 then -1
    else if s[0] == c then 0
    else
      var r := IndexOfChar(s[1..], c);
      if r < 0 then -1 else r + 1
  }

  /** No earlier character is `c`; with -1, no character at all. */
  lemma {:induction false} IndexOfCharFirst(s: string, c: char)
    ensures forall k :: 0 <= k < (if IndexOfChar(s, c) < 0 then |s| else IndexOfChar(s, c)) ==> s[k] != c
  {
    if |s| > 0 && s[0] != c {
      IndexOfCharFirst(s[1..], c);
      assert forall k :: 1 <= k < |s| ==> s[k] == s[1..][k - 1];
    }
  }

  /** strings.LastIndexByte: the last index of `c` in `s`, or -1. */
  function LastIndexOfChar(s: string, c: char): (r: int)
    ensures r == -1 || (0 <= r < |s| && s[r] == c)
  {
    if |s| == 0 then -1
    else if s[|s| - 1] == c then |s| - 1
    else LastIndexOfChar(s[..|s| - 1], c)
  }

  /** No later character is `c`; with -1, no character at all. */
  lemma {:induction false} LastIndexOfCharLast(s: string, c: char)
    ensures forall k :: LastIndexOfChar(s, c) < k < |s| ==> s[k] != c
  {
    if |s| > 0 && s[|s| - 1] != c {
      LastIndexOfCharLast(s[..|s| - 1], c);
      assert forall k :: 0 <= k < |s| - 1 ==> s[k] == s[..|s| - 1][k];
    }
  }

  /** strings.Join */
  function Join(parts: seq<string>, sep: string): string {
    if |parts| == 0 then ""
    else if |parts| == 1 then parts[0]
    else parts[0] + sep + Join(parts[1..], sep)
  }

  lemma JoinCons(a: string, rest: seq<string>, sep: string)
    requires |rest| > 0
    ensures Join([a] + rest, sep) == a + sep + Join(rest, sep)
  {
    assert ([a] + rest)[1..] == rest;
  }

  /** Joining around an inner split point puts the separator back between the halves. */
  lemma {:induction false} JoinSplitAt(parts: seq<string>, k: nat, sep: string)
    requires 0 < k < |parts|
    ensures Join(parts, sep) == Join(parts[..k], sep) + sep + Join(parts[k..], sep)
  {
    if k > 1 {
      JoinSplitAt(parts[1..], k - 1, sep);
      assert parts[1..][..k - 1] == parts[..k][1..];
      assert parts[1..][k - 1..] == parts[k..];
    }
  }

  /** Joining one more part appends the separator and the part. */
  lemma {:induction false} JoinSnoc(xs: seq<string>, x: string, sep: string)
    requires |xs| > 0
    ensures Join(xs + [x], sep) == Join(xs, sep) + sep + x
  {
    if |xs| == 1 {
      assert xs + [x] == [xs[0], x];
    } else {
      JoinSnoc(xs[1..], x, sep);
      assert (xs + [x])[1..] == xs[1..] + [x];
    }
  }

  lemma JoinPrefix(r: seq<string>, k: nat, sep: string)
    requires 1 <= k < |r|
    ensures Join(r[..k + 1], sep) == Join(r[..k], sep) + sep + r[k]
  {
    assert r[..k + 1] == r[..k] + [r[k]];
    JoinSnoc(r[..k], r[k], sep);
  }

  /** Six strings joined, written out. */
  lemma JoinSix(r: seq<string>, sep: string)
    requires |r| == 6
    ensures Join(r, sep) == r[0] + sep + r[1] + sep + r[2] + sep + r[3] + sep + r[4] + sep + r[5]
  {
    assert Join(r[..1], sep) == r[0];
    JoinPrefix(r, 1, sep);
    JoinPrefix(r, 2, sep);
    JoinPrefix(r, 3, sep);
    JoinPrefix(r, 4, sep);
    JoinPrefix(r, 5, sep);
    assert r[..6] == r;
  }

  lemma NoOccurrenceInHead(head: string, tail: string, sub: string, j: int)
    requires Index(head, sub) == -1
    requires |head| >= 1 && head[|head| - 1] !in sub
    requires 0 <= j < |head|
    ensures !OccursAt(head + tail, sub, j)
  {
    var s := head + tail;
    if j + |sub| <= |head| {
      IndexFirst(head, sub, j);
      assert s[j..j + |sub|] == head[j..j + |sub|];
    } else if j + |sub| <= |s| {
      assert s[j..j + |sub|][|head| - 1 - j] == head[|head| - 1];
      assert sub[|head| - 1 - j] in sub;
    }
  }

  /** An occurrence at the start of `tail` is the first one in `head + tail` when `head` has none. */
  lemma IndexAfter(head: string, tail: string, sub: string)
    requires Index(head, sub) == -1
    requires |head| >= 1 && head[|head| - 1] !in sub
    requires OccursAt(tail, sub, 0)
    ensures Index(head + tail, sub) == |head|
  {
    var s := head + tail;
    assert s[|head|..|head| + |sub|] == tail[..|sub|];
    assert OccursAt(s, sub, |head|);
    var r := Index(s, sub);
    if r < 0 || r > |head| {
      IndexFirst(s, sub, |head|);
    } else if r < |head| {
      NoOccurrenceInHead(head, tail, sub, r);
    }
  }

  /**
   * strings.SplitN for n > 0 and a one-character separator: at most n parts,
   * the last one being the unsplit remainder.
   */
  function SplitN(s: string, sep: char, n: nat): (parts: seq<string>)
    requires n >= 1
    ensures 1 <= |parts| <= n
    decreases n
  {
    var i := IndexOfChar(s, sep);
    if n == 1 || i < 0 then [s]
    else [s[..i]] + SplitN(s[i + 1..], sep, n - 1)
  }

  /** The parts of SplitN join back to `s`. */
  lemma {:induction false} SplitNJoin(s: string, sep: char, n: nat)
    requires n >= 1
    ensures Join(SplitN(s, sep, n), [sep]) == s
    decreases n
  {
    var i := IndexOfChar(s, sep);
    if n > 1 && i >= 0 {
      var rest := SplitN(s[i + 1..], sep, n - 1);
      SplitNJoin(s[i + 1..], sep, n - 1);
      JoinCons(s[..i], rest, [sep]);
      assert s == s[..i] + [sep] + s[i + 1..];
    }
  }

  /** The separator occurs in no part of SplitN but a last part that reached the limit. */
  lemma {:induction false} SplitNParts(s: string, sep: char, n: nat)
    requires n >= 1
    ensures var parts := SplitN(s, sep, n);
      (forall i :: 0 <= i < |parts| - 1 ==> sep !in parts[i]) &&
      (|parts| < n ==> sep !in parts[|parts| - 1])
    decreases n
  {
    var i := IndexOfChar(s, sep);
    IndexOfCharFirst(s, sep);
    if n > 1 && i >= 0 {
      SplitNParts(s[i + 1..], sep, n - 1);
      assert forall k :: 0 <= k < i ==> s[..i][k] == s[k];
    }
  }

  /** strings.Split with a one-character separator. */
  function Split(s: string, sep: char): (parts: seq<string>)
    ensures 1 <= |parts|
    decreases |s|
  {
    var i := IndexOfChar(s, sep);
    if i < 0 then [s]
    else [s[..i]] + Split(s[i + 1..], sep)
  }

  /** The parts of Split join back to `s` and none holds the separator. */
  lemma {:induction false} SplitSpec(s: string, sep: char)
    ensures Join(Split(s, sep), [sep]) == s
    ensures forall i :: 0 <= i < |Split(s, sep)| ==> sep !in Split(s, sep)[i]
    decreases |s|
  {
    var i := IndexOfChar(s, sep);
    IndexOfCharFirst(s, sep);
    if i >= 0 {
      var rest := Split(s[i + 1..], sep);
      SplitSpec(s[i + 1..], sep);
      JoinCons(s[..i], rest, [sep]);
      assert s == s[..i] + [sep] + s[i + 1..];
      assert Split(s, sep) == [s[..i]] + rest;
      assert forall k :: 0 <= k < i ==> s[..i][k] == s[k];
    }
  }

  lemma IndexOfCharAfter(a: string, sep: char, b: string)
    requires sep !in a
    ensures IndexOfChar(a + [sep] + b, sep) == |a|
  {
    var s := a + [sep] + b;
    IndexOfCharFirst(s, sep);
    assert s[|a|] == sep;
    forall k | 0 <= k < |a| ensures s[k] != sep {
      assert s[k] == a[k];
    }
  }

  /** Splitting past a separator-free first part peels that part off. */
  lemma SplitNCons(a: string, sep: char, b: string, n: nat)
    requires n >= 2
    requires sep !in a
    ensures SplitN(a + [sep] + b, sep, n) == [a] + SplitN(b, sep, n - 1)
  {
    var s := a + [sep] + b;
    IndexOfCharAfter(a, sep, b);
    assert s[..|a|] == a;
    assert s[|a| + 1..] == b;
  }

  /** strings.TrimPrefix */
  function TrimPrefix(s: string, prefix: string): (r: string)
    ensures prefix <= s ==> prefix + r == s
    ensures !(prefix <= s) ==> r == s
  {
    if prefix <= s then s[|prefix|..] else s
  }

  /** strings.TrimSuffix */
  function TrimSuffix(s: string, suffix: string): (r: string)
    ensures HasSuffix(s, suffix) ==> r + suffix == s
    ensures !HasSuffix(s, suffix) ==> r == s
  {
    if HasSuffix(s, suffix) then s[..|s| - |suffix|] else s
  }

  /** unicode.IsSpace, which strings.TrimSpace trims on both ends. */
  predicate IsSpace(c: char) {
    c == ' ' || c == '\t' || c == '\n' || c == '\r' || c == '\U{0B}' || c == '\U{0C}'
    || c == '\U{85}' || c == '\U{A0}' || c == '\U{1680}'
    || ('\U{2000}' <= c <= '\U{200A}')
    || c == '\U{2028}' || c == '\U{2029}' || c == '\U{202F}' || c == '\U{205F}' || c == '\U{3000}'
  }

  predicate AllSpace(s: string) {
    forall i :: 0 <= i < |s| ==> IsSpace(s[i])
  }

  /** Drops leading white space: the result is a suffix of `s`. */
  function TrimLeftSpace(s: string): (r: string)
    ensures |r| <= |s| && r == s[|s| - |r|..]
    ensures r == [] || !IsSpace(r[0])
  {
    if |s| > 0 && IsSpace(s[0]) then
      var r := TrimLeftSpace(s[1..]);
      assert s[1..][|s| - 1 - |r|..] == s[|s| - |r|..];
      r
    else s
  }

  lemma {:induction false} TrimLeftSpaceDropped(s: string)
    ensures AllSpace(s[..|s| - |TrimLeftSpace(s)|])
  {
    if |s| > 0 && IsSpace(s[0]) {
      var r := TrimLeftSpace(s[1..]);
      TrimLeftSpaceDropped(s[1..]);
      assert s[..|s| - |r|] == [s[0]] + s[1..][..|s| - 1 - |r|];
    }
  }

  /** Drops trailing white space: the result is a prefix of `s`. */
  function TrimRightSpace(s: string): (r: string)
    ensures |r| <= |s| && r == s[..|r|]
    ensures r == [] || !IsSpace(r[|r| - 1])
  {
    if |s| > 0 && IsSpace(s[|s| - 1]) then
      var r := TrimRightSpace(s[..|s| - 1]);
      assert s[..|s| - 1][..|r|] == s[..|r|];
      r
    else s
  }

  lemma {:induction false} TrimRightSpaceDropped(s: string)
    ensures AllSpace(s[|TrimRightSpace(s)|..])
  {
    if |s| > 0 && IsSpace(s[|s| - 1]) {
      var r := TrimRightSpace(s[..|s| - 1]);
      TrimRightSpaceDropped(s[..|s| - 1]);
      assert s[|r|..] == s[..|s| - 1][|r|..] + [s[|s| - 1]];
    }
  }

  /** strings.TrimSpace: drops leading and trailing white space. */
  function TrimSpace(s: string): (r: string)
    ensures |r| <= |s|
  {
    TrimRightSpace(TrimLeftSpace(s))
  }

  /** TrimSpace leaves nothing exactly when `s` is all white space. */
  lemma TrimSpaceEmpty(s: string)
    ensures TrimSpace(s) == [] <==> AllSpace(s)
  {
    var left := TrimLeftSpace(s);
    assert forall k :: 0 <= k < |left| ==> left[k] == s[|s| - |left| + k];
    if TrimSpace(s) == [] {
      TrimLeftSpaceDropped(s);
      TrimRightSpaceDropped(left);
      assert left[0..] == left;
      var i := |s| - |left|;
      assert s == s[..i] + left;
    }
  }
}

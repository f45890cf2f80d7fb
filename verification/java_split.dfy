/** `String.split(regex)` for a regex that is one character without special
    meaning (such as "@") and the default limit of zero.  Java takes a fast path
    for such a separator: it cuts the string at every occurrence of the character,
    returns the whole string when there is none, and otherwise drops the trailing
    empty fields (a leading empty field is kept). */
module JavaSplit {

  /** `String.indexOf(int ch)`: the first position of `c` in `s`, or -1. */
  function IndexOf(s: string, c: char): (i: int)
    ensures -1 <= i < |s|
    ensures 0 <= i ==> s[i] == c
  {
    if |s| == 0 then -1
    else if s[0] == c then 0
    else
      var j := IndexOf(s[1..], c);
      if j == -1 then -1 else j + 1
  }

  /** Every field of `s` between occurrences of `c`, empty fields included. */
  function Fields(s: string, c: char): (fs: seq<string>)
    ensures |fs| >= 1
    decreases |s|
  {
    var i := IndexOf(s, c);
    if i == -1 then [s] else [s[..i]] + Fields(s[i + 1..], c)
  }

  /** `fs` without its trailing empty strings. */
  function DropTrailingEmpty(fs: seq<string>): (r: seq<string>)
    ensures |r| <= |fs| && r == fs[..|r|]
    ensures |r| == 0 || r[|r| - 1] != ""
    ensures forall k :: |r| <= k < |fs| ==> fs[k] == ""
  {
    if |fs| > 0 && fs[|fs| - 1] == "" then DropTrailingEmpty(fs[..|fs| - 1]) else fs
  }

  /** `s.split(c)` with limit zero. */
  function Split(s: string, c: char): seq<string>
  {
    if IndexOf(s, c) == -1 then [s] else DropTrailingEmpty(Fields(s, c))
  }

  /** `n` copies of `c`. */
  function Repeat(c: char, n: nat): (t: string)
    ensures |t| == n
    ensures forall k :: 0 <= k < n ==> t[k] == c
  {
    if n == 0 then "" else [c] + Repeat(c, n - 1)
  }

  /** `String.join(c, fs)`: the fields glued back together with `c` between them. */
  function Join(fs: seq<string>, c: char): string
    requires |fs| >= 1
  {
    if |fs| == 1 then fs[0] else fs[0] + [c] + Join(fs[1..], c)
  }

  /** `n` empty strings. */
  function Empties(n: nat): (es: seq<string>)
    ensures |es| == n
    ensures forall k :: 0 <= k < n ==> es[k] == ""
  {
    seq(n, k => "")
  }

  /** `indexOf` finds the first `c`: there is none before the position it returns,
      and none at all when it returns -1. */
  lemma {:induction false} IndexOfFirst(s: string, c: char)
    ensures forall k :: 0 <= k < |s| && (IndexOf(s, c) == -1 || k < IndexOf(s, c)) ==> s[k] != c
    decreases |s|
  {
    if |s| > 0 && s[0] != c {
      IndexOfFirst(s[1..], c);
      forall k | 0 <= k < |s| && (IndexOf(s, c) == -1 || k < IndexOf(s, c))
        ensures s[k] != c
      {
        if k > 0 {
          assert s[k] == s[1..][k - 1];
        }
      }
    }
  }

  /** `indexOf` returns -1 exactly when `c` does not occur. */
  lemma IndexOfAbsent(s: string, c: char)
    ensures IndexOf(s, c) == -1 <==> c !in s
  {
    IndexOfFirst(s, c);
  }

  /** The text before the position `indexOf` returns holds no `c`. */
  lemma BeforeIndexOf(s: string, c: char)
    requires IndexOf(s, c) != -1
    ensures c !in s[..IndexOf(s, c)]
  {
    IndexOfFirst(s, c);
  }

  /** An occurrence of `c` with no `c` before it is the one `indexOf` finds. */
  lemma IndexOfIsFirst(s: string, c: char, i: nat)
    requires i < |s| && s[i] == c
    requires c !in s[..i]
    ensures IndexOf(s, c) == i
  {
    IndexOfFirst(s, c);
  }

  /** One step of `Fields`: the text before the first `c`, then the fields after it. */
  lemma FieldsStep(s: string, c: char, i: int)
    requires i == IndexOf(s, c) && i != -1
    ensures Fields(s, c) == [s[..i]] + Fields(s[i + 1..], c)
  {
  }

  /** One step of `Join`. */
  lemma JoinStep(x: string, rest: seq<string>, c: char)
    requires |rest| >= 1
    ensures Join([x] + rest, c) == x + [c] + Join(rest, c)
  {
    assert ([x] + rest)[1..] == rest;
  }

  /** A string is the part before position `i`, the character there, and the rest. */
  lemma CutAt(s: string, i: nat)
    requires i < |s|
    ensures s == s[..i] + [s[i]] + s[i + 1..]
  {
  }

  /** Cutting at `c` loses nothing: the fields joined with `c` give back `s`. */
  lemma {:induction false} JoinFields(s: string, c: char)
    ensures Join(Fields(s, c), c) == s
    decreases |s|
  {
    var i := IndexOf(s, c);
    if i != -1 {
      var head, tail := s[..i], s[i + 1..];
      FieldsStep(s, c, i);
      JoinStep(head, Fields(tail, c), c);
      JoinFields(tail, c);
      CutAt(s, i);
    }
  }

  /** No field contains the separator. */
  lemma {:induction false} FieldsAvoidSeparator(s: string, c: char)
    ensures forall k :: 0 <= k < |Fields(s, c)| ==> c !in Fields(s, c)[k]
    decreases |s|
  {
    var i := IndexOf(s, c);
    if i == -1 {
      IndexOfAbsent(s, c);
    } else {
      var head, tail := s[..i], s[i + 1..];
      FieldsStep(s, c, i);
      FieldsAvoidSeparator(tail, c);
      BeforeIndexOf(s, c);
      ConsAvoids(head, Fields(tail, c), c);
    }
  }

  /** Prepending a field free of `c` keeps every field free of `c`. */
  lemma ConsAvoids(head: string, rest: seq<string>, c: char)
    requires c !in head
    requires forall k :: 0 <= k < |rest| ==> c !in rest[k]
    ensures forall k :: 0 <= k < |[head] + rest| ==> c !in ([head] + rest)[k]
  {
  }

  /** Conversely, fields free of `c` are recovered exactly from their join. */
  lemma {:induction false} FieldsJoin(fs: seq<string>, c: char)
    requires |fs| >= 1
    requires forall k :: 0 <= k < |fs| ==> c !in fs[k]
    ensures Fields(Join(fs, c), c) == fs
    decreases |fs|
  {
    if |fs| > 1 {
      var head, rest := fs[0], fs[1..];
      assert fs == [head] + rest;
      var tail := Join(rest, c);
      var s := head + [c] + tail;
      JoinStep(head, rest, c);
      FirstSeparator(head, tail, c);
      FieldsStep(s, c, |head|);
      FieldsJoin(rest, c);
    }
  }

  /** In `head + [c] + tail` with no `c` in `head`, the first `c` ends `head`. */
  lemma FirstSeparator(head: string, tail: string, c: char)
    requires c !in head
    ensures var s := head + [c] + tail;
      IndexOf(s, c) == |head| && s[..|head|] == head && s[|head| + 1..] == tail
  {
    var s := head + [c] + tail;
    assert s[|head|] == c;
    assert s[..|head|] == head;
    IndexOfIsFirst(s, c, |head|);
    assert s[|head| + 1..] == tail;
  }

  /** A field followed by `n` empty fields joins to the field followed by `n` separators. */
  lemma {:induction false} JoinEmpties(b: string, n: nat, c: char)
    ensures Join([b] + Empties(n), c) == b + Repeat(c, n)
    decreases n
  {
    if n > 0 {
      assert ([b] + Empties(n))[1..] == [""] + Empties(n - 1);
      JoinEmpties("", n - 1, c);
      assert Repeat(c, n) == [c] + Repeat(c, n - 1);
    }
  }

  /** What `split` returns when the separator occurs: fields free of `c`, the last
      one non-empty, which with some number of empty fields appended join back to `s`.
      Only trailing fields are dropped, so a leading empty field survives. */
  lemma SplitRejoins(s: string, c: char)
    requires c in s
    ensures var parts := Split(s, c);
      && (forall k :: 0 <= k < |parts| ==> c !in parts[k])
      && (|parts| == 0 || parts[|parts| - 1] != "")
      && exists n: nat :: 1 <= |parts| + n && Join(parts + Empties(n), c) == s
  {
    IndexOfAbsent(s, c);
    var fs := Fields(s, c);
    var parts := Split(s, c);
    JoinFields(s, c);
    FieldsAvoidSeparator(s, c);
    var n := |fs| - |parts|;
    assert fs == parts + Empties(n);
  }

  /** A split into exactly two fields means `s` is the first field, the separator,
      the (non-empty) second field and nothing but separators after it. */
  lemma {:induction false} SplitPairShape(s: string, c: char, a: string, b: string)
    requires Split(s, c) == [a, b]
    ensures c !in a && c !in b && b != ""
    ensures s == a + [c] + b + Repeat(c, |Fields(s, c)| - 2)
  {
    var fs := Fields(s, c);
    var r := DropTrailingEmpty(fs);
    assert r == [a, b] && fs[..2] == [a, b];
    var n := |fs| - 2;
    assert fs == [a] + ([b] + Empties(n));
    JoinFields(s, c);
    FieldsAvoidSeparator(s, c);
    assert fs[0] == a && fs[1] == b;
    assert ([a] + ([b] + Empties(n)))[1..] == [b] + Empties(n);
    JoinEmpties(b, n, c);
    assert s == a + [c] + (b + Repeat(c, n));
  }

  /** Conversely, that shape splits into exactly `[a, b]`. */
  lemma {:induction false} SplitOfPairShape(c: char, a: string, b: string, n: nat)
    requires c !in a && c !in b && b != ""
    ensures Split(a + [c] + b + Repeat(c, n), c) == [a, b]
  {
    var s := a + [c] + b + Repeat(c, n);
    var fs := [a] + ([b] + Empties(n));
    assert fs[1..] == [b] + Empties(n);
    JoinEmpties(b, n, c);
    assert Join(fs, c) == s;
    FieldsJoin(fs, c);
    assert s[|a|] == c;
    IndexOfAbsent(s, c);
    var r := DropTrailingEmpty(fs);
    assert fs[1] == b;
    assert |r| >= 2;
    assert r == fs[..2] == [a, b];
  }

  /** `s.split(c)` is exactly the pair `[a, b]` when and only when `s` is `a`, the
      separator, a non-empty `b`, and then nothing but separators, with neither
      `a` nor `b` containing the separator. */
  lemma SplitIsPair(s: string, c: char, a: string, b: string)
    ensures Split(s, c) == [a, b] <==>
      (c !in a && c !in b && b != "" && exists n: nat :: s == a + [c] + b + Repeat(c, n))
  {
    if Split(s, c) == [a, b] {
      SplitPairShape(s, c, a, b);
    }
    if c !in a && c !in b && b != "" && exists n: nat :: s == a + [c] + b + Repeat(c, n) {
      var n: nat :| s == a + [c] + b + Repeat(c, n);
      SplitOfPairShape(c, a, b, n);
    }
  }
}

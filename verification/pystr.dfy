/** The Python `str` operations the modelled code relies on: `strip`,
    `split` on one separator character, `join`, `replace` of one character,
    `startswith` and `upper`.  Strings are sequences of Unicode scalar values. */
module PyStr {

  /** Python's `str.isspace` for one character: the characters `str.strip()`
      with no argument removes. */
  predicate IsSpace(c: char) {
    var n := c as int;
    || (9 <= n <= 13)
    || (28 <= n <= 32)
    || n == 0x85
    || n == 0xA0
    || n == 0x1680
    || (0x2000 <= n <= 0x200A)
    || n == 0x2028
    || n == 0x2029
    || n == 0x202F
    || n == 0x205F
    || n == 0x3000
  }

  /** Every character of `s` is whitespace (so `s.isspace()` or `s == ""`). */
  predicate AllSpace(s: string) {
    forall k :: 0 <= k < |s| ==> IsSpace(s[k])
  }

  /** The first character and the rest. */
  lemma AllSpaceTail(s: string)
    requires s != []
    ensures AllSpace(s) <==> IsSpace(s[0]) && AllSpace(s[1..])
  {
    if IsSpace(s[0]) && AllSpace(s[1..]) {
      forall k | 0 <= k < |s|
        ensures IsSpace(s[k])
      {
        if k > 0 {
          assert s[k] == s[1..][k - 1];
        }
      }
    }
  }

  /** `s.strip()`: `s` without its leading and trailing whitespace.  Python
      removes the leading run first; taking one whitespace character off
      either end at a time reaches the same string. */
  function Strip(s: string): (r: string)
    ensures r == [] || (!IsSpace(r[0]) && !IsSpace(r[|r| - 1]))
    ensures r == [] <==> AllSpace(s)
    decreases |s|
  {
    if s != [] && IsSpace(s[0]) then
      AllSpaceTail(s);
      Strip(s[1..])
    else if s != [] && IsSpace(s[|s| - 1]) then
      assert s[..|s| - 1][0] == s[0];
      Strip(s[..|s| - 1])
    else
      s
  }

  /** A string with no whitespace at either end is its own `strip`. */
  lemma StripNoEdges(s: string)
    requires s == [] || (!IsSpace(s[0]) && !IsSpace(s[|s| - 1]))
    ensures Strip(s) == s
  {
  }

  /** Where the text `strip` keeps starts. */
  function StripStart(s: string): nat
    decreases |s|
  {
    if s != [] && IsSpace(s[0]) then 1 + StripStart(s[1..])
    else if s != [] && IsSpace(s[|s| - 1]) then StripStart(s[..|s| - 1])
    else 0
  }

  /** `r` sits at `i` in `s` with only whitespace around it. */
  predicate InfixAt(s: string, i: nat, r: string) {
    i + |r| <= |s| && r == s[i..i + |r|] && AllSpace(s[..i]) && AllSpace(s[i + |r|..])
  }

  /** What `strip` removes is whitespace on either side of a contiguous
      piece of `s`. */
  lemma {:induction false} StripIsInfix(s: string)
    ensures InfixAt(s, StripStart(s), Strip(s))
    decreases |s|
  {
    if s != [] && IsSpace(s[0]) {
      StripIsInfix(s[1..]);
      InfixFront(s, StripStart(s[1..]), Strip(s[1..]));
    } else if s != [] && IsSpace(s[|s| - 1]) {
      StripIsInfix(s[..|s| - 1]);
      InfixBack(s, StripStart(s[..|s| - 1]), Strip(s[..|s| - 1]));
    } else {
      assert s[0..|s|] == s;
    }
  }

  lemma InfixFront(s: string, i: nat, r: string)
    requires s != [] && IsSpace(s[0]) && InfixAt(s[1..], i, r)
    ensures InfixAt(s, i + 1, r)
  {
    var t := s[1..];
    assert s[i + 1..i + 1 + |r|] == t[i..i + |r|];
    assert s[i + 1 + |r|..] == t[i + |r|..];
    var p := s[..i + 1];
    assert p[1..] == t[..i];
    AllSpaceTail(p);
  }

  lemma InfixBack(s: string, i: nat, r: string)
    requires s != [] && IsSpace(s[|s| - 1]) && InfixAt(s[..|s| - 1], i, r)
    ensures InfixAt(s, i, r)
  {
    var t := s[..|s| - 1];
    assert s[i..i + |r|] == t[i..i + |r|];
    assert s[..i] == t[..i];
    var q := s[i + |r|..];
    assert q[..|q| - 1] == t[i + |r|..] && q[|q| - 1] == s[|s| - 1];
  }

  /** `s.startswith(p)`. */
  predicate StartsWith(s: string, p: string) {
    |p| <= |s| && s[..|p|] == p
  }

  /** `sep.join(xs)`. */
  function Join(xs: seq<string>, sep: string): string
    decreases |xs|
  {
    if |xs| == 0 then []
    else if |xs| == 1 then xs[0]
    else xs[0] + sep + Join(xs[1..], sep)
  }

  /** Joining two non-empty lists puts one separator between their joins. */
  lemma {:induction false} JoinAppend(a: seq<string>, b: seq<string>, sep: string)
    requires |a| > 0 && |b| > 0
    ensures Join(a + b, sep) == Join(a, sep) + sep + Join(b, sep)
    decreases |a|
  {
    if |a| == 1 {
      assert (a + b)[1..] == b;
    } else {
      assert (a + b)[1..] == a[1..] + b;
      JoinAppend(a[1..], b, sep);
    }
  }

  /** A join starts with its first piece and ends with its last. */
  lemma {:induction false} JoinEnds(xs: seq<string>, sep: string)
    requires |xs| >= 1
    ensures var j := Join(xs, sep);
            && |xs[0]| <= |j| && j[..|xs[0]|] == xs[0]
            && |xs[|xs| - 1]| <= |j| && j[|j| - |xs[|xs| - 1]|..] == xs[|xs| - 1]
  {
    var n := |xs|;
    if n > 1 {
      JoinAppend([xs[0]], xs[1..], sep);
      assert [xs[0]] + xs[1..] == xs;
      JoinAppend(xs[..n - 1], [xs[n - 1]], sep);
      assert xs[..n - 1] + [xs[n - 1]] == xs;
    }
  }

  /** A join of pieces whose first piece is non-empty is non-empty. */
  lemma JoinNonEmpty(xs: seq<string>, sep: string)
    requires |xs| >= 1 && xs[0] != []
    ensures Join(xs, sep) != []
  {
    JoinEnds(xs, sep);
  }

  /** `s.split(sep)` for a one-character separator: the maximal pieces
      between separators, including the empty ones; never an empty list. */
  function Split(s: string, sep: char): (r: seq<string>)
    ensures |r| >= 1
    ensures forall i :: 0 <= i < |r| ==> sep !in r[i]
    decreases |s|
  {
    if s == [] then [[]]
    else
      var rest := Split(s[1..], sep);
      if s[0] == sep then [[]] + rest
      else [[s[0]] + rest[0]] + rest[1..]
  }

  /** Joining the pieces of a split restores the string. */
  lemma {:induction false} SplitThenJoin(s: string, sep: char)
    ensures Join(Split(s, sep), [sep]) == s
    decreases |s|
  {
    if s != [] {
      var rest := Split(s[1..], sep);
      SplitThenJoin(s[1..], sep);
      if s[0] == sep {
        assert ([[]] + rest)[1..] == rest;
      } else if |rest| > 1 {
        var r := [[s[0]] + rest[0]] + rest[1..];
        assert r[1..] == rest[1..];
        assert s == [s[0]] + s[1..];
      } else {
        assert s == [s[0]] + s[1..];
      }
    }
  }

  lemma {:induction false} SplitPrefix(x: string, t: string, sep: char)
    requires sep !in x
    ensures Split(x + t, sep) == [x + Split(t, sep)[0]] + Split(t, sep)[1..]
    decreases |x|
  {
    if x != [] {
      assert (x + t)[1..] == x[1..] + t;
      SplitPrefix(x[1..], t, sep);
      var rt := Split(t, sep);
      var rest := Split(x[1..] + t, sep);
      assert rest == [x[1..] + rt[0]] + rt[1..];
      assert (x + t)[0] == x[0];
      assert Split(x + t, sep) == [[x[0]] + rest[0]] + rest[1..];
      assert [x[0]] + (x[1..] + rt[0]) == x + rt[0];
    } else {
      assert x + t == t;
      var r := Split(t, sep);
      assert [] + r[0] == r[0];
      assert r == [r[0]] + r[1..];
    }
  }

  /** Splitting a join of separator-free pieces gives back the pieces. */
  lemma {:induction false} JoinThenSplit(xs: seq<string>, sep: char)
    requires |xs| >= 1
    requires forall i :: 0 <= i < |xs| ==> sep !in xs[i]
    ensures Split(Join(xs, [sep]), sep) == xs
    decreases |xs|
  {
    if |xs| == 1 {
      SplitPrefix(xs[0], [], sep);
      assert xs[0] + [] == xs[0];
    } else {
      var j := Join(xs[1..], [sep]);
      JoinThenSplit(xs[1..], sep);
      assert xs[0] + [sep] + j == xs[0] + ([sep] + j);
      SplitPrefix(xs[0], [sep] + j, sep);
      assert ([sep] + j)[1..] == j;
      assert Split([sep] + j, sep) == [[]] + Split(j, sep);
      assert xs[0] + [] == xs[0];
      assert xs == [xs[0]] + xs[1..];
    }
  }

  /** Number of occurrences of `c` in `s`. */
  function Count(s: string, c: char): nat
    decreases |s|
  {
    if s == [] then 0 else (if s[0] == c then 1 else 0) + Count(s[1..], c)
  }

  lemma {:induction false} CountAppend(a: string, b: string, c: char)
    ensures Count(a + b, c) == Count(a, c) + Count(b, c)
    decreases |a|
  {
    if a != [] {
      assert (a + b)[1..] == a[1..] + b;
      CountAppend(a[1..], b, c);
    } else {
      assert a + b == b;
    }
  }

  lemma CountAbsent(s: string, c: char)
    requires c !in s
    ensures Count(s, c) == 0
    decreases |s|
  {
    if s != [] {
      CountAbsent(s[1..], c);
    }
  }

  /** `s.replace(c, rep)` for a one-character pattern `c`: every occurrence of
      `c` becomes `rep`, every other character is kept in place. */
  function ReplaceChar(s: string, c: char, rep: string): (r: string)
    ensures |r| == |s| + Count(s, c) * (|rep| - 1)
    ensures c !in rep ==> c !in r
    decreases |s|
  {
    if s == [] then []
    else
      var tail := ReplaceChar(s[1..], c, rep);
      var n := Count(s[1..], c);
      assert (1 + n) * (|rep| - 1) == n * (|rep| - 1) + |rep| - 1;
      (if s[0] == c then rep else [s[0]]) + tail
  }

  /** Characters other than `c` and those of `rep` are neither lost nor
      introduced. */
  lemma {:induction false} ReplaceCharKeepsOthers(s: string, c: char, rep: string, x: char)
    requires x != c && x !in rep
    ensures Count(ReplaceChar(s, c, rep), x) == Count(s, x)
    decreases |s|
  {
    if s != [] {
      var head := if s[0] == c then rep else [s[0]];
      var tail := ReplaceChar(s[1..], c, rep);
      assert ReplaceChar(s, c, rep) == head + tail;
      CountAppend(head, tail, x);
      if s[0] == c {
        CountAbsent(rep, x);
      }
      ReplaceCharKeepsOthers(s[1..], c, rep, x);
    }
  }

  /** Replacing introduces no character that neither `s` nor `rep` has. */
  lemma {:induction false} ReplaceCharAbsent(s: string, c: char, rep: string, x: char)
    requires x !in s && x !in rep
    ensures x !in ReplaceChar(s, c, rep)
    decreases |s|
  {
    if s != [] {
      ReplaceCharAbsent(s[1..], c, rep, x);
    }
  }

  /** ASCII upper-casing of one character. */
  function UpperChar(c: char): char {
    if 'a' <= c <= 'z' then (c as int - 32) as char else c
  }

  /** `s.upper()`, restricted to the ASCII letters. */
  function Upper(s: string): (r: string)
    ensures |r| == |s|
  {
    seq(|s|, i requires 0 <= i < |s| => UpperChar(s[i]))
  }
}

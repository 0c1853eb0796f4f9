/**
 * The handful of JavaScript string and array operations the kernel relies
 * on: `startsWith`, `split("\n")`, `join`, concatenation of a list of
 * strings and the decimal rendering of a number inside a template literal.
 */
module Strings {

  /** `s.startsWith(prefix)`. */
  predicate StartsWith<T(==)>(s: seq<T>, prefix: seq<T>) {
    |prefix| <= |s| && s[..|prefix|] == prefix
  }

  /** `sub` occurs somewhere inside `s`. */
  ghost predicate Contains<T>(s: seq<T>, sub: seq<T>) {
    exists k :: OccursAt(s, sub, k)
  }

  /** `sub` occurs inside `s` starting at offset `k`. */
  ghost predicate OccursAt<T>(s: seq<T>, sub: seq<T>, k: int) {
    0 <= k <= |s| - |sub| && s[k..k + |sub|] == sub
  }

  lemma ContainsWithin<T>(a: seq<T>, s: seq<T>, b: seq<T>, sub: seq<T>)
    requires Contains(s, sub)
    ensures Contains(a + s + b, sub)
  {
    var k :| OccursAt(s, sub, k);
    var t := a + s + b;
    assert t[|a| + k..|a| + k + |sub|] == sub by {
      forall i | 0 <= i < |sub| ensures t[|a| + k + i] == sub[i] {
        assert t[|a| + k + i] == s[k + i];
      }
    }
    assert OccursAt(t, sub, |a| + k);
  }

  lemma ContainsPrepend<T>(a: seq<T>, s: seq<T>, sub: seq<T>)
    requires Contains(s, sub)
    ensures Contains(a + s, sub)
  {
    ContainsWithin(a, s, [], sub);
    assert a + s + [] == a + s;
  }

  lemma ContainsAppend<T>(s: seq<T>, b: seq<T>, sub: seq<T>)
    requires Contains(s, sub)
    ensures Contains(s + b, sub)
  {
    ContainsWithin([], s, b, sub);
    assert [] + s + b == s + b;
  }

  /** `s` is obtained from `t` by deleting elements, keeping the order of the rest. */
  ghost predicate IsSubsequence<T>(s: seq<T>, t: seq<T>)
    decreases |t|
  {
    if s == [] then true
    else if t == [] then false
    else if s[0] == t[0] then IsSubsequence(s[1..], t[1..])
    else IsSubsequence(s, t[1..])
  }

  lemma {:induction false} SubsequenceShorter<T>(s: seq<T>, t: seq<T>)
    requires IsSubsequence(s, t)
    ensures |s| <= |t|
    decreases |t|
  {
    if s != [] {
      if s[0] == t[0] {
        SubsequenceShorter(s[1..], t[1..]);
      } else {
        SubsequenceShorter(s, t[1..]);
      }
    }
  }

  /** Dropping trailing elements of a subsequence keeps it a subsequence. */
  lemma {:induction false} SubsequencePrefix<T>(s: seq<T>, t: seq<T>, n: nat)
    requires IsSubsequence(s, t) && n <= |s|
    ensures IsSubsequence(s[..n], t)
    decreases |t|
  {
    if n > 0 {
      if s[0] == t[0] {
        SubsequencePrefix(s[1..], t[1..], n - 1);
        assert s[1..][..n - 1] == s[..n][1..];
      } else {
        SubsequencePrefix(s, t[1..], n);
      }
    }
  }

  /** Putting an element in front of the larger sequence keeps a subsequence one. */
  lemma {:induction false} SubsequenceCons<T>(s: seq<T>, t: seq<T>)
    requires t != [] && IsSubsequence(s, t[1..])
    ensures IsSubsequence(s, t)
    decreases |t|, 0
  {
    if s != [] && s[0] == t[0] {
      SubsequenceDropFirst(s, t[1..]);
    }
  }

  lemma {:induction false} SubsequenceDropFirst<T>(s: seq<T>, t: seq<T>)
    requires s != [] && IsSubsequence(s, t)
    ensures IsSubsequence(s[1..], t)
    decreases |t|, 1
  {
    if s[0] == t[0] {
      SubsequenceCons(s[1..], t);
    } else {
      SubsequenceDropFirst(s, t[1..]);
      SubsequenceCons(s[1..], t);
    }
  }

  /** A subsequence of a suffix is a subsequence of the whole. */
  lemma {:induction false} SubsequenceOfSuffix<T>(s: seq<T>, t: seq<T>, k: nat)
    requires k <= |t| && IsSubsequence(s, t[k..])
    ensures IsSubsequence(s, t)
    decreases k
  {
    if k > 0 {
      assert t[1..][k - 1..] == t[k..];
      SubsequenceOfSuffix(s, t[1..], k - 1);
      SubsequenceCons(s, t);
    }
  }

  /** `xs.join(sep)`. */
  function Join(xs: seq<string>, sep: string): string
    decreases |xs|
  {
    if |xs| == 0 then ""
    else if |xs| == 1 then xs[0]
    else xs[0] + sep + Join(xs[1..], sep)
  }

  /** Every joined element appears in the joined string. */
  lemma {:induction false} JoinContains(xs: seq<string>, sep: string, i: nat)
    requires i < |xs|
    ensures Contains(Join(xs, sep), xs[i])
    decreases |xs|
  {
    if |xs| == 1 || i == 0 {
      assert Join(xs, sep)[0..|xs[0]|] == xs[0];
      assert OccursAt(Join(xs, sep), xs[i], 0);
    } else {
      JoinContains(xs[1..], sep, i - 1);
      ContainsWithin(xs[0] + sep, Join(xs[1..], sep), "", xs[i]);
      assert xs[0] + sep + Join(xs[1..], sep) + "" == Join(xs, sep);
    }
  }

  /** The strings of `ss` one after the other. */
  function Concat(ss: seq<string>): string
    decreases |ss|
  {
    if ss == [] then "" else ss[0] + Concat(ss[1..])
  }

  lemma ConcatOne(s: string)
    ensures Concat([s]) == s
  {
    assert [s][1..] == [];
    assert s + "" == s;
  }

  lemma {:induction false} ConcatAppend(a: seq<string>, b: seq<string>)
    ensures Concat(a + b) == Concat(a) + Concat(b)
    decreases |a|
  {
    if a == [] {
      assert a + b == b;
    } else {
      ConcatAppend(a[1..], b);
      assert (a + b)[1..] == a[1..] + b;
    }
  }

  /**
   * `s.split("\n")`: the pieces between newlines, an empty piece for each
   * leading, trailing or doubled newline, and `[""]` for the empty string.
   */
  function Split(s: string): (pieces: seq<string>)
    ensures |pieces| >= 1
    ensures forall k :: 0 <= k < |pieces| ==> '\n' !in pieces[k]
    decreases |s|
  {
    if s == [] then [""]
    else if s[0] == '\n' then [""] + Split(s[1..])
    else
      var rest := Split(s[1..]);
      [[s[0]] + rest[0]] + rest[1..]
  }

  /** Splitting and re-joining with the separator gives back the string. */
  lemma {:induction false} JoinSplit(s: string)
    ensures Join(Split(s), "\n") == s
    decreases |s|
  {
    if s != [] {
      JoinSplit(s[1..]);
      var rest := Split(s[1..]);
      if s[0] == '\n' {
        assert Split(s) == [""] + rest;
        assert Join(Split(s), "\n") == "" + "\n" + Join(rest, "\n");
      } else {
        assert Split(s) == [[s[0]] + rest[0]] + rest[1..];
        if |rest| == 1 {
          assert Join(rest, "\n") == rest[0];
        } else {
          assert Join(rest, "\n") == rest[0] + "\n" + Join(rest[1..], "\n");
          assert Join(Split(s), "\n") == [s[0]] + rest[0] + "\n" + Join(rest[1..], "\n");
        }
        assert s == [s[0]] + s[1..];
      }
    }
  }

  /** A line without newlines followed by a newline is split off as one piece. */
  lemma {:induction false} SplitLine(line: string, rest: string)
    requires '\n' !in line
    ensures Split(line + "\n" + rest) == [line] + Split(rest)
    decreases |line|
  {
    if line == [] {
      assert line + "\n" + rest == "\n" + rest;
    } else {
      SplitLine(line[1..], rest);
      assert (line + "\n" + rest)[1..] == line[1..] + "\n" + rest;
      assert [line[0]] + line[1..] == line;
    }
  }

  /** A string without newlines is split into itself. */
  lemma {:induction false} SplitNoNewline(s: string)
    requires '\n' !in s
    ensures Split(s) == [s]
    decreases |s|
  {
    if s != [] {
      SplitNoNewline(s[1..]);
      assert [s[0]] + s[1..] == s;
    }
  }

  function DigitChar(d: nat): char
    requires d < 10
  {
    ('0' as int + d) as char
  }

  predicate IsDigit(c: char) {
    '0' <= c <= '9'
  }

  function DigitValue(c: char): nat
    requires IsDigit(c)
  {
    c as int - '0' as int
  }

  /** The decimal rendering of `n`, as `${n}` produces for a non-negative integer. */
  function NatToString(n: nat): (r: string)
    ensures |r| >= 1
    ensures forall k :: 0 <= k < |r| ==> IsDigit(r[k])
    decreases n
  {
    if n < 10 then [DigitChar(n)] else NatToString(n / 10) + [DigitChar(n % 10)]
  }

  /** The number a string of decimal digits denotes. */
  function DecimalValue(s: string): nat
    requires forall k :: 0 <= k < |s| ==> IsDigit(s[k])
    decreases |s|
  {
    if s == [] then 0
    else DecimalValue(s[..|s| - 1]) * 10 + DigitValue(s[|s| - 1])
  }

  /** Reading back the rendering gives the number: the rendering is injective. */
  lemma {:induction false} DecimalRoundTrip(n: nat)
    ensures DecimalValue(NatToString(n)) == n
    decreases n
  {
    var r := NatToString(n);
    if n < 10 {
      assert r[..0] == [];
    } else {
      DecimalRoundTrip(n / 10);
      assert r[..|r| - 1] == NatToString(n / 10);
    }
  }
}

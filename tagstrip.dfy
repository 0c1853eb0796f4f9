/**
 * The tag stripping applied to scraped pages in scripts/oldloadDB.ts:
 * `html.replace(/<[^>]*>?/gm, "")`. Scanning left to right, every `<`
 * starts a match that runs through the next `>` (greedy `[^>]*`, which
 * also swallows further `<`), or to the end of the text when no `>`
 * follows; the matches are deleted and everything else is kept. The `m`
 * flag has no effect on a pattern without anchors.
 */
module TagStrip {
  import opened Strings

  /** What remains after `[^>]*>?` has matched at the start of `t`. */
  function AfterTag(t: string): (r: string)
    ensures |r| <= |t|
    decreases |t|
  {
    if t == [] then []
    else if t[0] == '>' then t[1..]
    else AfterTag(t[1..])
  }

  /** The result of the global replace. */
  function StripTags(s: string): string
    decreases |s|
  {
    if s == [] then []
    else if s[0] == '<' then StripTags(AfterTag(s[1..]))
    else [s[0]] + StripTags(s[1..])
  }

  /** No `<` survives. */
  lemma {:induction false} NoOpenBracketLeft(s: string)
    ensures '<' !in StripTags(s)
    decreases |s|
  {
    if s != [] {
      if s[0] == '<' {
        NoOpenBracketLeft(AfterTag(s[1..]));
      } else {
        NoOpenBracketLeft(s[1..]);
      }
    }
  }

  /** Text before the first `<` is kept as it is. */
  lemma {:induction false} PlainPrefixKept(p: string, rest: string)
    requires '<' !in p
    ensures StripTags(p + rest) == p + StripTags(rest)
    decreases |p|
  {
    if p == [] {
      assert p + rest == rest;
    } else {
      assert (p + rest)[0] == p[0];
      assert (p + rest)[1..] == p[1..] + rest;
      PlainPrefixKept(p[1..], rest);
      assert [p[0]] + (p[1..] + StripTags(rest)) == p + StripTags(rest);
    }
  }

  /** A string without `<` is returned unchanged. */
  lemma NoTagUnchanged(s: string)
    requires '<' !in s
    ensures StripTags(s) == s
  {
    PlainPrefixKept(s, []);
    assert s + [] == s;
  }

  /** Stripping twice is stripping once. */
  lemma Idempotent(s: string)
    ensures StripTags(StripTags(s)) == StripTags(s)
  {
    NoOpenBracketLeft(s);
    NoTagUnchanged(StripTags(s));
  }

  lemma {:induction false} AfterTagClosed(q: string, r: string)
    requires '>' !in q
    ensures AfterTag(q + ">" + r) == r
    decreases |q|
  {
    if q == [] {
      assert q + ">" + r == ">" + r;
    } else {
      assert (q + ">" + r)[1..] == q[1..] + ">" + r;
      AfterTagClosed(q[1..], r);
    }
  }

  lemma {:induction false} AfterTagUnclosed(q: string)
    requires '>' !in q
    ensures AfterTag(q) == []
    decreases |q|
  {
    if q != [] {
      AfterTagUnclosed(q[1..]);
    }
  }

  /**
   * A `<`, the text up to the next `>`, and that `>` are removed together;
   * the text before is kept and the text after is stripped in turn.
   */
  lemma RemovesTag(p: string, q: string, r: string)
    requires '<' !in p && '>' !in q
    ensures StripTags(p + "<" + q + ">" + r) == p + StripTags(r)
  {
    var t := "<" + q + ">" + r;
    assert p + "<" + q + ">" + r == p + t;
    PlainPrefixKept(p, t);
    assert t[1..] == q + ">" + r;
    AfterTagClosed(q, r);
  }

  /** A `<` with no `>` after it removes the rest of the text. */
  lemma RemovesUnterminated(p: string, q: string)
    requires '<' !in p && '>' !in q
    ensures StripTags(p + "<" + q) == p
  {
    var t := "<" + q;
    assert p + "<" + q == p + t;
    PlainPrefixKept(p, t);
    assert t[1..] == q;
    AfterTagUnclosed(q);
    assert StripTags([]) == [];
    assert p + [] == p;
  }

  lemma {:induction false} AfterTagSuffix(t: string)
    ensures exists k :: 0 <= k <= |t| && AfterTag(t) == t[k..]
    decreases |t|
  {
    if t == [] {
      assert AfterTag(t) == t[0..];
    } else if t[0] == '>' {
      assert AfterTag(t) == t[1..];
    } else {
      AfterTagSuffix(t[1..]);
      var k :| 0 <= k <= |t[1..]| && AfterTag(t[1..]) == t[1..][k..];
      assert t[1..][k..] == t[k + 1..];
    }
  }

  /** The kept characters are the input's, in their order, so the text never grows. */
  lemma {:induction false} KeepsOrder(s: string)
    ensures IsSubsequence(StripTags(s), s)
    ensures |StripTags(s)| <= |s|
    decreases |s|
  {
    if s != [] {
      if s[0] == '<' {
        var rest := AfterTag(s[1..]);
        KeepsOrder(rest);
        AfterTagSuffix(s[1..]);
        var k :| 0 <= k <= |s[1..]| && rest == s[1..][k..];
        assert s[1..][k..] == s[k + 1..];
        SubsequenceOfSuffix(StripTags(rest), s, k + 1);
      } else {
        KeepsOrder(s[1..]);
        assert ([s[0]] + StripTags(s[1..]))[1..] == StripTags(s[1..]);
      }
      SubsequenceShorter(StripTags(s), s);
    }
  }
}

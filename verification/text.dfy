/**
  String predicates with the meaning of JavaScript's `startsWith`, `endsWith`
  and `includes` on strings, plus the lemmas the route predicates need to
  decide substring tests on URLs that are built from slash-separated parts.
 */
module Text {

  /** `s.startsWith(p)` */
  predicate StartsWith(s: string, p: string) {
    |p| <= |s| && s[..|p|] == p
  }

  /** `s.endsWith(p)` */
  predicate EndsWith(s: string, p: string) {
    |p| <= |s| && s[|s| - |p|..] == p
  }

  /** `s` has `sub` at position `i`. */
  predicate OccursAt(s: string, sub: string, i: int) {
    0 <= i && i + |sub| <= |s| && s[i..i + |sub|] == sub
  }

  /** `s.includes(sub)`: the empty string is contained in every string. */
  predicate Contains(s: string, sub: string) {
    exists i | 0 <= i <= |s| - |sub| :: OccursAt(s, sub, i)
  }

  /** A pattern of the shape "/name": a slash followed by a non-empty name with no slash. */
  predicate SlashPattern(sub: string) {
    |sub| >= 2 && sub[0] == '/' && '/' !in sub[1..]
  }

  /** A string is not found when a character it needs is missing. */
  lemma MissingChar(s: string, sub: string, c: char)
    requires c in sub && c !in s
    ensures !Contains(s, sub)
  {
  }

  /** Strings that start differently do not prefix each other. */
  lemma FirstCharDiffers(s: string, p: string)
    requires |s| > 0 && |p| > 0 && s[0] != p[0]
    ensures !StartsWith(s, p)
  {
  }

  /** Containment survives appending on either side. */
  lemma ContainsAppend(a: string, b: string, sub: string)
    requires Contains(a, sub)
    ensures Contains(a + b, sub) && Contains(b + a, sub)
  {
    var i :| 0 <= i <= |a| - |sub| && OccursAt(a, sub, i);
    assert (a + b)[i..i + |sub|] == a[i..i + |sub|];
    assert OccursAt(a + b, sub, i);
    assert (b + a)[|b| + i..|b| + i + |sub|] == a[i..i + |sub|];
    assert OccursAt(b + a, sub, |b| + i);
  }

  /** An occurrence starting at the joining slash. */
  lemma OccursAtJoin(p: string, seg: string, sub: string)
    requires |sub| >= 1 && sub[0] == '/' && StartsWith(seg, sub[1..])
    ensures OccursAt(p + "/" + seg, sub, |p|)
  {
  }

  /** Where an occurrence of a slash pattern in `p + "/" + seg` can start. */
  lemma OccurrenceInJoin(p: string, seg: string, sub: string, i: int)
    requires SlashPattern(sub) && '/' !in seg
    requires OccursAt(p + "/" + seg, sub, i)
    ensures OccursAt(p, sub, i) || (i == |p| && StartsWith(seg, sub[1..]))
  {
    var s := p + "/" + seg;
    var n := |p|;
    assert s[i] == '/' by { assert s[i] == s[i..i + |sub|][0]; }
    if i == n {
      forall k | 0 <= k < |sub| - 1
        ensures seg[k] == sub[1..][k]
      {
        assert s[n + 1 + k] == s[i..i + |sub|][k + 1];
      }
      assert seg[..|sub| - 1] == sub[1..];
    } else if i < n {
      // no character after the first one of the occurrence is a slash, so
      // the joining slash lies beyond it
      forall j | i < j < i + |sub|
        ensures s[j] != '/'
      {
        assert s[j] == s[i..i + |sub|][j - i];
        assert sub[j - i] == sub[1..][j - i - 1];
      }
      assert s[n] == '/';
      assert p[i..i + |sub|] == s[i..i + |sub|];
    }
  }

  /**
    The key decomposition: when `seg` has no slash and `sub` is a slash
    pattern, an occurrence of `sub` in `p + "/" + seg` lies wholly inside
    `p` or starts at the joining slash.
   */
  lemma ContainsSplitAtSlash(p: string, seg: string, sub: string)
    requires SlashPattern(sub)
    requires '/' !in seg
    ensures Contains(p + "/" + seg, sub) <==> Contains(p, sub) || StartsWith(seg, sub[1..])
  {
    var s := p + "/" + seg;
    if Contains(s, sub) {
      var i :| 0 <= i <= |s| - |sub| && OccursAt(s, sub, i);
      OccurrenceInJoin(p, seg, sub, i);
    }
    if Contains(p, sub) {
      ContainsAppend(p, "/" + seg, sub);
      assert p + ("/" + seg) == s;
    }
    if StartsWith(seg, sub[1..]) {
      OccursAtJoin(p, seg, sub);
    }
  }

  /** A string ending in `p` ends in `p`'s last character. */
  lemma EndsWithLast(s: string, p: string)
    requires EndsWith(s, p) && |p| > 0
    ensures s[|s| - 1] == p[|p| - 1]
  {
  }

  /** A suffix that ends in a slash, split at that slash. */
  lemma EndsWithSlash(s: string, p: string)
    requires |p| > 0
    ensures EndsWith(s + "/", p + "/") <==> EndsWith(s, p)
  {
    var t := s + "/";
    if EndsWith(t, p + "/") {
      assert s[|s| - |p|..] == t[|t| - |p + "/"|..][..|p|];
    }
    if EndsWith(s, p) {
      assert t[|t| - |p + "/"|..] == s[|s| - |p|..] + "/";
    }
  }
}

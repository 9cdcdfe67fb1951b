/**
 * PostgreSQL pattern matching as the post store's search uses it:
 * `title ILIKE '%' || q || '%'`. In a LIKE pattern '%' matches any run of
 * characters, '_' any single character, and '\' (the default escape
 * character) makes the next character literal. ILIKE lower-cases both the
 * text and the pattern before matching.
 */
module SqlLike {
  import opened Strings

  predicate IsWildcard(c: char) { c == '%' || c == '_' || c == '\\' }

  /** No character of q has a special meaning in a LIKE pattern. */
  predicate IsPlain(q: string) { forall i :: 0 <= i < |q| ==> !IsWildcard(q[i]) }

  /**
   * `s LIKE p`. A pattern ending in a lone '\' is rejected by PostgreSQL; no
   * pattern of the form '%' || q || '%' ends that way, and here the lone
   * '\' is read as a literal.
   */
  function Like(s: string, p: string): bool
    decreases |s| + |p|
  {
    if p == [] then s == []
    else if p[0] == '%' then Like(s, p[1..]) || (s != [] && Like(s[1..], p))
    else if p[0] == '_' then s != [] && Like(s[1..], p[1..])
    else if p[0] == '\\' && |p| >= 2 then s != [] && s[0] == p[1] && Like(s[1..], p[2..])
    else s != [] && s[0] == p[0] && Like(s[1..], p[1..])
  }

  /** The search condition `title ILIKE '%' || q || '%'`. */
  predicate TitleMatches(title: string, q: string)
  {
    Like(ToLower(title), ToLower("%" + q + "%"))
  }

  lemma {:induction false} PercentMatchesAll(s: string)
    ensures Like(s, "%")
  {
    assert "%"[1..] == [];
    if s != [] {
      PercentMatchesAll(s[1..]);
    }
  }

  /** A literal pattern followed by '%' matches exactly the strings it prefixes. */
  lemma {:induction false} LiteralThenPercent(s: string, q: string)
    requires IsPlain(q)
    ensures Like(s, q + "%") <==> q <= s
  {
    if q == [] {
      assert q + "%" == "%";
      PercentMatchesAll(s);
    } else {
      var p := q + "%";
      assert p[0] == q[0] && p[1..] == q[1..] + "%";
      assert !IsWildcard(q[0]);
      if s != [] {
        LiteralThenPercent(s[1..], q[1..]);
        assert q <= s <==> s[0] == q[0] && q[1..] <= s[1..];
      }
    }
  }

  /** A leading '%' lets the rest of the pattern match any suffix. */
  lemma {:induction false} PercentThen(s: string, r: string)
    ensures Like(s, "%" + r) <==> exists i :: 0 <= i <= |s| && Like(s[i..], r)
  {
    var p := "%" + r;
    assert p[0] == '%' && p[1..] == r;
    assert s[0..] == s;
    if s != [] {
      PercentThen(s[1..], r);
      if Like(s[1..], p) {
        var i :| 0 <= i <= |s[1..]| && Like(s[1..][i..], r);
        assert s[1..][i..] == s[i + 1..];
      }
      if i :| 0 < i <= |s| && Like(s[i..], r) {
        assert s[1..][i - 1..] == s[i..];
      }
    }
  }

  /** For a query free of wildcards, LIKE '%q%' is substring search. */
  lemma PlainPatternIsContains(s: string, q: string)
    requires IsPlain(q)
    ensures Like(s, "%" + q + "%") <==> Contains(s, q)
  {
    assert "%" + q + "%" == "%" + (q + "%");
    PercentThen(s, q + "%");
    forall i | 0 <= i <= |s|
      ensures Like(s[i..], q + "%") <==> q <= s[i..]
    {
      LiteralThenPercent(s[i..], q);
    }
  }

  /** Lower-casing keeps a query free of wildcards. */
  lemma LowerKeepsPlain(q: string)
    requires IsPlain(q)
    ensures IsPlain(ToLower(q))
  {
  }

  /**
   * The search ILIKE '%q%' with a wildcard-free q is case-insensitive
   * substring search in the title.
   */
  lemma TitleMatchesIsContains(title: string, q: string)
    requires IsPlain(q)
    ensures TitleMatches(title, q) <==> Contains(ToLower(title), ToLower(q))
  {
    var lq := ToLower(q);
    assert ToLower("%" + q + "%") == "%" + lq + "%";
    LowerKeepsPlain(q);
    PlainPatternIsContains(ToLower(title), lq);
  }

  /** The empty query matches every title. */
  lemma EmptyQueryMatchesAll(title: string)
    ensures TitleMatches(title, "")
  {
    var l := ToLower(title);
    assert ToLower("%" + "" + "%") == "%%";
    assert "%%"[1..] == "%";
    PercentMatchesAll(l);
  }

  /** The query is not escaped: "_" matches every non-empty title, although none contains '_'. */
  lemma UnderscoreMatchesAnyTitle()
    ensures TitleMatches("Go", "_") && !Contains(ToLower("Go"), "_")
  {
    assert ToLower("%" + "_" + "%") == "%_%";
    var l := ToLower("Go");
    assert l == "go";
    assert "%_%"[1..] == "_%";
    assert "_%"[1..] == "%";
    PercentMatchesAll(l[1..]);
    assert Like(l, "_%");
  }
}

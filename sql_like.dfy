/**
 * SQLite's LIKE operator as the search queries use it: no ESCAPE clause,
 * '%' matches any run of characters (also none), '_' matches exactly one
 * character, and letters compare ASCII case-insensitively.
 */
module SqlLike {
  import opened Text

  /** Case-sensitive match of the whole of s against the pattern p. */
  predicate Matches(s: string, p: string)
    decreases |p|, |s|
  {
    if p == [] then s == []
    else if p[0] == '%' then Matches(s, p[1..]) || (s != [] && Matches(s[1..], p))
    else s != [] && (p[0] == '_' || p[0] == s[0]) && Matches(s[1..], p[1..])
  }

  /** s LIKE p, with SQLite's default ASCII case-insensitivity. */
  predicate Like(s: string, p: string) {
    Matches(Lower(s), Lower(p))
  }

  /** x holds neither of LIKE's wildcard characters. */
  predicate NoWildcards(x: string) {
    '%' !in x && '_' !in x
  }

  predicate IsPrefixOf(x: string, s: string) {
    |x| <= |s| && s[..|x|] == x
  }

  /** x occurs in s as a contiguous substring (Python's `x in s`). */
  predicate Contains(s: string, x: string) {
    exists k :: 0 <= k <= |s| && IsPrefixOf(x, s[k..])
  }

  /** A lone '%' matches every string. */
  lemma {:induction false} PercentMatchesAll(s: string)
    ensures Matches(s, "%")
    decreases |s|
  {
    if s != [] {
      PercentMatchesAll(s[1..]);
    }
  }

  /** With no wildcards in x, the pattern x% says that s starts with x. */
  lemma {:induction false} PrefixPattern(s: string, x: string)
    requires NoWildcards(x)
    ensures Matches(s, x + "%") <==> IsPrefixOf(x, s)
    decreases |x|
  {
    if x == [] {
      assert x + "%" == "%";
      PercentMatchesAll(s);
    } else {
      assert x[0] in x;
      assert (x + "%")[1..] == x[1..] + "%";
      assert NoWildcards(x[1..]) by {
        forall i | 0 <= i < |x[1..]| ensures x[1..][i] != '%' && x[1..][i] != '_' {
          assert x[1..][i] == x[i + 1];
        }
      }
      if s != [] {
        PrefixPattern(s[1..], x[1..]);
        assert IsPrefixOf(x, s) <==> s[0] == x[0] && IsPrefixOf(x[1..], s[1..]) by {
          if IsPrefixOf(x, s) {
            assert s[..|x|][1..] == s[1..][..|x| - 1];
          }
          if s[0] == x[0] && IsPrefixOf(x[1..], s[1..]) {
            assert s[..|x|] == [s[0]] + s[1..][..|x| - 1];
          }
        }
      }
    }
  }

  /** A leading '%' lets the rest of the pattern match any suffix of s. */
  lemma {:induction false} LeadingPercent(s: string, q: string)
    ensures Matches(s, "%" + q) <==> exists k :: 0 <= k <= |s| && Matches(s[k..], q)
    decreases |s|
  {
    var p := "%" + q;
    assert p[1..] == q;
    if s == [] {
      assert s[0..] == s;
    } else {
      LeadingPercent(s[1..], q);
      assert s[0..] == s;
      if Matches(s, p) && !Matches(s, q) {
        var k :| 0 <= k <= |s[1..]| && Matches(s[1..][k..], q);
        assert s[1..][k..] == s[k + 1..];
      }
      if exists k :: 0 <= k <= |s| && Matches(s[k..], q) {
        var k :| 0 <= k <= |s| && Matches(s[k..], q);
        if k > 0 {
          assert s[1..][k - 1..] == s[k..];
        }
      }
    }
  }

  /**
   * The patterns the search builds, "%" + x + "%", mean "x is a substring"
   * as long as x holds no wildcard character.
   */
  lemma SubstringPattern(s: string, x: string)
    requires NoWildcards(x)
    ensures Matches(s, "%" + x + "%") <==> Contains(s, x)
  {
    assert "%" + x + "%" == "%" + (x + "%");
    LeadingPercent(s, x + "%");
    forall k | 0 <= k <= |s| ensures Matches(s[k..], x + "%") <==> IsPrefixOf(x, s[k..]) {
      PrefixPattern(s[k..], x);
    }
  }

  /** Whatever x holds, s matches x% when s starts with x: each character of x matches itself. */
  lemma {:induction false} PrefixMatches(s: string, x: string)
    requires IsPrefixOf(x, s)
    ensures Matches(s, x + "%")
    decreases |x|
  {
    if x == [] {
      assert x + "%" == "%";
      PercentMatchesAll(s);
    } else {
      var p := x + "%";
      assert p[1..] == x[1..] + "%";
      assert s[0] == x[0] by { assert s[..|x|][0] == s[0]; }
      assert IsPrefixOf(x[1..], s[1..]) by { assert s[..|x|][1..] == s[1..][..|x| - 1]; }
      PrefixMatches(s[1..], x[1..]);
      if x[0] == '%' {
        assert Matches(s[1..], p[1..]);
        assert Matches(s[1..], p);
      }
    }
  }

  /**
   * A text that holds x matches "%" + x + "%", wildcards in x or not: the
   * converse of SubstringPattern needs no condition on x.
   */
  lemma ContainsMatches(s: string, x: string)
    requires Contains(s, x)
    ensures Matches(s, "%" + x + "%")
  {
    var k :| 0 <= k <= |s| && IsPrefixOf(x, s[k..]);
    PrefixMatches(s[k..], x);
    assert "%" + x + "%" == "%" + (x + "%");
    LeadingPercent(s, x + "%");
  }

  /** Without wildcards a pattern matches only the text equal to it. */
  lemma {:induction false} LiteralPattern(s: string, x: string)
    requires NoWildcards(x)
    ensures Matches(s, x) <==> s == x
    decreases |x|
  {
    if x != [] {
      assert x[0] in x;
      assert NoWildcards(x[1..]) by {
        forall i | 0 <= i < |x[1..]| ensures x[1..][i] != '%' && x[1..][i] != '_' {
          assert x[1..][i] == x[i + 1];
        }
      }
      if s != [] {
        LiteralPattern(s[1..], x[1..]);
        assert s == x <==> s[0] == x[0] && s[1..] == x[1..] by {
          if s[0] == x[0] && s[1..] == x[1..] {
            assert s == [s[0]] + s[1..] && x == [x[0]] + x[1..];
          }
        }
      }
    }
  }
}

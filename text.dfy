/**
 * String operations of Python's str that the scripts use: lower(), strip(),
 * split(c)[0], split(c), replace(), join(), and str(int).
 * Lower-casing is ASCII-only, as SQLite's LOWER() is.
 */
module Text {

  /** Python's str.isspace(), character by character. */
  predicate IsSpace(c: char) {
    c == ' ' || ('\t' <= c <= '\r') || ('\U{1c}' <= c <= '\U{1f}')
    || c == '\U{85}' || c == '\U{a0}' || c == '\U{1680}'
    || ('\U{2000}' <= c <= '\U{200a}') || c == '\U{2028}' || c == '\U{2029}'
    || c == '\U{202f}' || c == '\U{205f}' || c == '\U{3000}'
  }

  predicate AllSpace(s: string) {
    forall i :: 0 <= i < |s| ==> IsSpace(s[i])
  }

  function LowerChar(c: char): char {
    if 'A' <= c <= 'Z' then (c as int + 32) as char else c
  }

  /** ASCII lower-casing, character by character. */
  function Lower(s: string): (r: string)
    ensures |r| == |s|
    ensures forall i :: 0 <= i < |s| ==> r[i] == LowerChar(s[i])
  {
    seq(|s|, i requires 0 <= i < |s| => LowerChar(s[i]))
  }

  lemma LowerIdempotent(s: string)
    ensures Lower(Lower(s)) == Lower(s)
  {
  }

  /** The number of leading whitespace characters of s. */
  function StripStart(s: string): (i: nat)
    ensures i <= |s| && AllSpace(s[..i])
    ensures i < |s| ==> !IsSpace(s[i])
  {
    if s != [] && IsSpace(s[0]) then
      var i := 1 + StripStart(s[1..]);
      assert s[..i] == [s[0]] + s[1..][..i - 1];
      i
    else 0
  }

  /** The length of s without its trailing whitespace. */
  function StripEnd(s: string): (j: nat)
    ensures j <= |s| && AllSpace(s[j..])
    ensures j > 0 ==> !IsSpace(s[j - 1])
  {
    if s != [] && IsSpace(s[|s| - 1]) then
      var j := StripEnd(s[..|s| - 1]);
      assert s[j..] == s[..|s| - 1][j..] + [s[|s| - 1]];
      j
    else |s|
  }

  /**
   * str.strip(): the text between the leading and the trailing whitespace;
   * empty when s is all whitespace. The result neither starts nor ends with
   * whitespace.
   */
  function Strip(s: string): (r: string)
    ensures r == [] || (!IsSpace(r[0]) && !IsSpace(r[|r| - 1]))
    ensures AllSpace(s) <==> r == []
    ensures r != [] ==> StripStart(s) < StripEnd(s) && r == s[StripStart(s)..StripEnd(s)]
  {
    var i, j := StripStart(s), StripEnd(s);
    if i == |s| then
      assert s[..i] == s;
      []
    else
      assert !IsSpace(s[i]);
      assert i < j;
      s[i..j]
  }

  /** Every character that Strip keeps comes from its input. */
  lemma StripKeeps(s: string, c: char)
    requires c in Strip(s)
    ensures c in s
  {
    var n :| 0 <= n < |Strip(s)| && Strip(s)[n] == c;
    assert s[StripStart(s) + n] == c;
  }

  /** Stripping a string that is already stripped changes nothing. */
  lemma StripStripped(s: string)
    requires s == [] || (!IsSpace(s[0]) && !IsSpace(s[|s| - 1]))
    ensures Strip(s) == s
  {
    if s != [] {
      assert s[0..|s|] == s;
    }
  }

  /**
   * s.split(c)[0]: the text before the first c, or all of s when c does not
   * occur. The contract determines the result uniquely.
   */
  function BeforeFirst(s: string, c: char): (r: string)
    ensures |r| <= |s| && r == s[..|r|]
    ensures c !in r
    ensures |r| < |s| ==> s[|r|] == c
  {
    if s == [] || s[0] == c then [] else [s[0]] + BeforeFirst(s[1..], c)
  }

  lemma BeforeFirstAbsent(s: string, c: char)
    requires c !in s
    ensures BeforeFirst(s, c) == s
  {
  }

  /** When c does not occur in a and b starts with c, splitting a + b on c gives a first. */
  lemma BeforeFirstConcat(a: string, b: string, c: char)
    requires c !in a
    requires b != [] && b[0] == c
    ensures BeforeFirst(a + b, c) == a
  {
    assert a == (a + b)[..|a|];
  }

  /** s.split(c) for a one-character separator, in Python's sense: never empty. */
  function SplitOn(s: string, c: char): (r: seq<string>)
    ensures |r| >= 1
    ensures forall k :: 0 <= k < |r| ==> c !in r[k]
    decreases |s|
  {
    var h := BeforeFirst(s, c);
    if |h| == |s| then [s] else [h] + SplitOn(s[|h| + 1..], c)
  }

  /** sep.join(parts). */
  function Join(parts: seq<string>, sep: string): string {
    if parts == [] then ""
    else if |parts| == 1 then parts[0]
    else parts[0] + sep + Join(parts[1..], sep)
  }

  lemma JoinTwo(a: string, b: string, sep: string)
    ensures Join([a, b], sep) == a + sep + b
  {
    assert [a, b][1..] == [b];
  }

  /** Splitting a joined text on its one-character separator gives the parts back. */
  lemma {:induction false} SplitJoin(parts: seq<string>, c: char)
    requires |parts| >= 1
    requires forall k :: 0 <= k < |parts| ==> c !in parts[k]
    ensures SplitOn(Join(parts, [c]), c) == parts
  {
    if |parts| == 1 {
      BeforeFirstAbsent(parts[0], c);
    } else {
      var rest := Join(parts[1..], [c]);
      var s := Join(parts, [c]);
      assert s == parts[0] + ([c] + rest);
      BeforeFirstConcat(parts[0], [c] + rest, c);
      var h := BeforeFirst(s, c);
      assert |h| < |s|;
      assert s[|h| + 1..] == rest;
      assert SplitOn(s, c) == [h] + SplitOn(rest, c);
      SplitJoin(parts[1..], c);
      assert parts == [parts[0]] + parts[1..];
    }
  }

  /**
   * s.replace(pat, rep): Python scans left to right and replaces
   * non-overlapping occurrences.
   */
  function Replace(s: string, pat: string, rep: string): string
    requires |pat| > 0
    decreases |s|
  {
    if |s| < |pat| then s
    else if s[..|pat|] == pat then rep + Replace(s[|pat|..], pat, rep)
    else [s[0]] + Replace(s[1..], pat, rep)
  }

  /** A pattern whose first character never occurs leaves the string unchanged. */
  lemma {:induction false} ReplaceAbsent(s: string, pat: string, rep: string)
    requires |pat| > 0 && pat[0] !in s
    ensures Replace(s, pat, rep) == s
  {
    if |s| >= |pat| {
      assert s[..|pat|][0] == s[0];
      assert s[0] in s;
      assert pat[0] !in s[1..];
      ReplaceAbsent(s[1..], pat, rep);
      assert s == [s[0]] + s[1..];
    }
  }

  /**
   * After replacing the one-character pattern [c] by rep, every character
   * is either a character of s other than c, or a character of rep.
   */
  lemma {:induction false} ReplaceCharSources(s: string, c: char, rep: string)
    ensures forall i :: 0 <= i < |Replace(s, [c], rep)| ==>
              (Replace(s, [c], rep)[i] in s && Replace(s, [c], rep)[i] != c) || Replace(s, [c], rep)[i] in rep
  {
    if |s| >= 1 {
      ReplaceCharSources(s[1..], c, rep);
      var tail := Replace(s[1..], [c], rep);
      forall i | 0 <= i < |tail| ensures (tail[i] in s && tail[i] != c) || tail[i] in rep {
        if tail[i] in s[1..] {
          var k :| 0 <= k < |s[1..]| && s[1..][k] == tail[i];
          assert s[k + 1] == tail[i];
        }
      }
      if s[..1] == [c] {
        var r := rep + tail;
        forall i | 0 <= i < |r| ensures (r[i] in s && r[i] != c) || r[i] in rep {
          if i >= |rep| { assert r[i] == tail[i - |rep|]; }
        }
      } else {
        var r := [s[0]] + tail;
        assert s[0] != c by { assert s[..1] == [s[0]]; }
        forall i | 0 <= i < |r| ensures (r[i] in s && r[i] != c) || r[i] in rep {
          if i >= 1 { assert r[i] == tail[i - 1]; }
        }
      }
    }
  }

  /** Replacing one character by one character maps the string character by character. */
  lemma {:induction false} ReplaceCharByChar(s: string, c: char, q: char)
    ensures |Replace(s, [c], [q])| == |s|
    ensures forall i :: 0 <= i < |s| ==> Replace(s, [c], [q])[i] == if s[i] == c then q else s[i]
    decreases |s|
  {
    if |s| >= 1 {
      ReplaceCharByChar(s[1..], c, q);
      var tail := Replace(s[1..], [c], [q]);
      assert s[..1] == [s[0]];
      var r := Replace(s, [c], [q]);
      assert r == [if s[0] == c then q else s[0]] + tail;
      forall i | 1 <= i < |s| ensures r[i] == if s[i] == c then q else s[i] {
        assert r[i] == tail[i - 1] && s[i] == s[1..][i - 1];
      }
    }
  }

  function DigitChar(d: nat): char
    requires d < 10
  {
    "0123456789"[d]
  }

  predicate IsDigit(c: char) {
    '0' <= c <= '9'
  }

  function DigitValue(c: char): nat
    requires IsDigit(c)
  {
    c as int - '0' as int
  }

  /** str(n) for a natural number: decimal digits, no leading zeros. */
  function NatToDecimal(n: nat): (r: string)
    ensures |r| >= 1
    ensures forall i :: 0 <= i < |r| ==> IsDigit(r[i])
    decreases n
  {
    if n < 10 then [DigitChar(n)] else NatToDecimal(n / 10) + [DigitChar(n % 10)]
  }

  /** int(s) for a string of decimal digits. */
  function DecimalToNat(s: string): nat
    requires forall i :: 0 <= i < |s| ==> IsDigit(s[i])
  {
    if s == [] then 0 else DecimalToNat(s[..|s| - 1]) * 10 + DigitValue(s[|s| - 1])
  }

  /** Reading back the decimal text of n gives n. */
  lemma {:induction false} DecimalRoundTrip(n: nat)
    ensures DecimalToNat(NatToDecimal(n)) == n
    decreases n
  {
    var r := NatToDecimal(n);
    if n >= 10 {
      DecimalRoundTrip(n / 10);
      assert r[..|r| - 1] == NatToDecimal(n / 10);
    }
  }

  /** Distinct numbers have distinct decimal texts. */
  lemma DecimalInjective(a: nat, b: nat)
    requires NatToDecimal(a) == NatToDecimal(b)
    ensures a == b
  {
    DecimalRoundTrip(a);
    DecimalRoundTrip(b);
  }

  /** str(i) for any integer. */
  function IntToDecimal(i: int): string {
    if i < 0 then "-" + NatToDecimal(-i) else NatToDecimal(i)
  }
}

/**
 * The handful of Python `str` operations that the gateway's post-processing of
 * the planner's reply relies on: `isspace`, `strip()`, `strip(chars)`,
 * `startswith`, the substring test `in`, and `replace(old, new)`.
 *
 * A Python `str` is a sequence of code points; here it is a Dafny `string`.
 * Which characters a strip removes is passed in as a predicate `drop`, so that
 * `strip()` is `Strip(s, IsSpace)` and `strip("`")` is `Strip(s, IsBacktick)`.
 */
module PyStr {

  /** Python's `str.isspace()` on one character: the ASCII whitespace and file,
      group, record and unit separators, NEL, NO-BREAK SPACE and the Unicode
      space separators, line and paragraph separators. */
  predicate IsSpace(c: char) {
    var n := c as int;
    || (0x09 <= n <= 0x0D)
    || (0x1C <= n <= 0x20)
    || n == 0x85
    || n == 0xA0
    || n == 0x1680
    || (0x2000 <= n <= 0x200A)
    || n == 0x2028
    || n == 0x2029
    || n == 0x202F
    || n == 0x205F
    || n == 0x3000
  }

  /** The character set of `strip("`")`. */
  predicate IsBacktick(c: char) {
    c == '`'
  }

  /** Every character of `s` is one that `drop` removes. */
  ghost predicate AllDrop(s: string, drop: char -> bool) {
    forall i :: 0 <= i < |s| ==> drop(s[i])
  }

  /** Neither end of `s` is a character that `drop` removes. */
  predicate NoEdge(s: string, drop: char -> bool) {
    s == [] || (!drop(s[0]) && !drop(s[|s| - 1]))
  }

  /** `r` is what is left of `s` once a run of dropped characters is cut off
      the front (the first `k` characters) and another off the back, with no
      dropped character left at either end of `r`. */
  ghost predicate TrimmedAt(s: string, r: string, drop: char -> bool, k: int) {
    && 0 <= k
    && k + |r| <= |s|
    && AllDrop(s[..k], drop)
    && s[k..k + |r|] == r
    && AllDrop(s[k + |r|..], drop)
    && NoEdge(r, drop)
  }

  /** The reference definition of stripping: `r` is a trimming of `s`. */
  ghost predicate IsTrimming(s: string, r: string, drop: char -> bool) {
    exists k :: TrimmedAt(s, r, drop, k)
  }

  /** Python's `lstrip`: drop the leading characters that `drop` removes. */
  function LStrip(s: string, drop: char -> bool): (r: string)
    ensures |r| <= |s| && r == s[|s| - |r|..]
    ensures r == [] || !drop(r[0])
    ensures AllDrop(s[..|s| - |r|], drop)
  {
    if s != [] && drop(s[0]) then
      var r := LStrip(s[1..], drop);
      assert s[..|s| - |r|] == [s[0]] + s[1..][..|s| - 1 - |r|];
      r
    else
      s
  }

  /** Python's `rstrip`: drop the trailing characters that `drop` removes. */
  function RStrip(s: string, drop: char -> bool): (r: string)
    ensures |r| <= |s| && r == s[..|r|]
    ensures r == [] || !drop(r[|r| - 1])
    ensures AllDrop(s[|r|..], drop)
  {
    if s != [] && drop(s[|s| - 1]) then
      var r := RStrip(s[..|s| - 1], drop);
      assert s[|r|..] == s[..|s| - 1][|r|..] + [s[|s| - 1]];
      r
    else
      s
  }

  /** Python's `strip`: `lstrip` and then `rstrip`, as CPython does it. */
  function Strip(s: string, drop: char -> bool): (r: string)
    ensures NoEdge(r, drop)
    ensures |r| <= |s|
  {
    RStrip(LStrip(s, drop), drop)
  }

  /** `strip` meets the reference definition. */
  lemma StripTrims(s: string, drop: char -> bool)
    ensures IsTrimming(s, Strip(s, drop), drop)
  {
    var t := LStrip(s, drop);
    var r := RStrip(t, drop);
    var k := |s| - |t|;
    assert t == s[k..];
    assert r == t[..|r|];
    assert s[k..k + |r|] == s[k..][..|r|];
    assert s[k + |r|..] == t[|r|..];
    assert AllDrop(s[..k], drop);
    assert AllDrop(s[k + |r|..], drop);
    assert TrimmedAt(s, r, drop, k);
  }

  /** A character of `s` that `drop` does not remove survives any trimming. */
  lemma KeptSurvives(s: string, r: string, drop: char -> bool, k: int, j: int)
    requires TrimmedAt(s, r, drop, k)
    requires 0 <= j < |s| && !drop(s[j])
    ensures k <= j < k + |r|
  {
  }

  /** A string has exactly one trimming, so `Strip` is the trimming. */
  lemma TrimmingUnique(s: string, r1: string, r2: string, drop: char -> bool)
    requires IsTrimming(s, r1, drop) && IsTrimming(s, r2, drop)
    ensures r1 == r2
  {
    var k1 :| TrimmedAt(s, r1, drop, k1);
    var k2 :| TrimmedAt(s, r2, drop, k2);
    // The kept ends of each trimming lie inside the other one.
    if r1 != [] {
      assert s[k1] == r1[0] && s[k1 + |r1| - 1] == r1[|r1| - 1];
      KeptSurvives(s, r2, drop, k2, k1);
      KeptSurvives(s, r2, drop, k2, k1 + |r1| - 1);
    }
    if r2 != [] {
      assert s[k2] == r2[0] && s[k2 + |r2| - 1] == r2[|r2| - 1];
      KeptSurvives(s, r1, drop, k1, k2);
      KeptSurvives(s, r1, drop, k1, k2 + |r2| - 1);
    }
  }

  /** Any trimming that can be exhibited is what `Strip` returns. */
  lemma StripIs(s: string, r: string, drop: char -> bool, k: int)
    requires TrimmedAt(s, r, drop, k)
    ensures Strip(s, drop) == r
  {
    StripTrims(s, drop);
    TrimmingUnique(s, Strip(s, drop), r, drop);
  }

  /** Stripping a string that has nothing to strip leaves it unchanged. */
  lemma StripNoOp(s: string, drop: char -> bool)
    requires NoEdge(s, drop)
    ensures Strip(s, drop) == s
  {
    assert s[..0] == [] && s[0..|s|] == s && s[|s|..] == [];
    StripIs(s, s, drop, 0);
  }

  /** `strip` is idempotent. */
  lemma StripIdempotent(s: string, drop: char -> bool)
    ensures Strip(Strip(s, drop), drop) == Strip(s, drop)
  {
    StripNoOp(Strip(s, drop), drop);
  }

  /** A prefix of a suffix holds no character more often than the whole. */
  lemma InfixMultiset(s: string, t: string, r: string)
    requires |t| <= |s| && t == s[|s| - |t|..]
    requires |r| <= |t| && r == t[..|r|]
    ensures multiset(r) <= multiset(s)
  {
    assert s == s[..|s| - |t|] + t;
    assert t == r + t[|r|..];
  }

  /** `strip` only removes characters. */
  lemma StripMultiset(s: string, drop: char -> bool)
    ensures multiset(Strip(s, drop)) <= multiset(s)
  {
    var t := LStrip(s, drop);
    InfixMultiset(s, t, RStrip(t, drop));
  }

  /** Python's `s.startswith(p)`. */
  predicate StartsWith(s: string, p: string) {
    p <= s
  }

  /** Python's substring test `pat in s`. */
  predicate Contains(s: string, pat: string) {
    exists i | 0 <= i <= |s| :: pat <= s[i..]
  }

  /** A pattern whose first character does not occur in `s` is not in `s`. */
  lemma AbsentHeadNotContained(s: string, pat: string)
    requires pat != [] && pat[0] !in s
    ensures !Contains(s, pat)
  {
    forall i | 0 <= i <= |s|
      ensures !(pat <= s[i..])
    {
      if i < |s| { assert s[i..][0] == s[i]; }
    }
  }

  /** Python's `s.replace(pat, rep)` for a non-empty `pat`: scanning from the
      left, every non-overlapping occurrence of `pat` is replaced by `rep`;
      text produced by a replacement is not scanned again. */
  function ReplaceAll(s: string, pat: string, rep: string): (r: string)
    requires pat != []
    ensures |rep| <= |pat| ==> |r| <= |s|
    decreases |s|
  {
    if |s| < |pat| then
      s
    else if StartsWith(s, pat) then
      rep + ReplaceAll(s[|pat|..], pat, rep)
    else
      [s[0]] + ReplaceAll(s[1..], pat, rep)
  }

  /** Where the pattern does not occur, `replace` changes nothing. */
  lemma {:induction false} ReplaceAbsent(s: string, pat: string, rep: string)
    requires pat != [] && !Contains(s, pat)
    ensures ReplaceAll(s, pat, rep) == s
    decreases |s|
  {
    if |s| >= |pat| {
      assert s[0..] == s;
      assert !Contains(s[1..], pat) by {
        forall i | 0 <= i <= |s[1..]|
          ensures !(pat <= s[1..][i..])
        {
          assert s[1..][i..] == s[i + 1..];
        }
      }
      ReplaceAbsent(s[1..], pat, rep);
      assert s == [s[0]] + s[1..];
    }
  }

  /** A prefix holding no character that could begin the pattern is copied
      unchanged, and the scan carries on after it. */
  lemma {:induction false} ReplaceSkipsPrefix(a: string, b: string, pat: string, rep: string)
    requires pat != [] && pat[0] !in a
    ensures ReplaceAll(a + b, pat, rep) == a + ReplaceAll(b, pat, rep)
    decreases |a|
  {
    if a != [] {
      var s := a + b;
      assert s[0] == a[0] && s[1..] == a[1..] + b;
      assert pat[0] !in a[1..] by {
        forall i | 0 <= i < |a[1..]| ensures a[1..][i] != pat[0] {
          assert a[1..][i] == a[i + 1];
        }
      }
      ReplaceSkipsPrefix(a[1..], b, pat, rep);
      if |s| >= |pat| {
        assert s[..|pat|][0] == a[0];
        assert !StartsWith(s, pat);
        assert ReplaceAll(s, pat, rep) == [a[0]] + ReplaceAll(a[1..] + b, pat, rep);
      } else {
        assert |b| < |pat|;
      }
      assert a == [a[0]] + a[1..];
    } else {
      assert a + b == b;
    }
  }

  /** Replacing by the empty string only removes characters. */
  lemma {:induction false} ReplaceMultiset(s: string, pat: string)
    requires pat != []
    ensures multiset(ReplaceAll(s, pat, "")) <= multiset(s)
    decreases |s|
  {
    if |s| < |pat| {
    } else if StartsWith(s, pat) {
      ReplaceMultiset(s[|pat|..], pat);
      assert s == s[..|pat|] + s[|pat|..];
    } else {
      ReplaceMultiset(s[1..], pat);
      assert s == [s[0]] + s[1..];
    }
  }

  /** A replacement pass does not re-scan what it has joined: removing "json"
      from "jsjsonon" leaves "json". */
  lemma ReplaceIsSinglePass()
    ensures ReplaceAll("jsjsonon", "json", "") == "json"
    ensures Contains(ReplaceAll("jsjsonon", "json", ""), "json")
  {
    var s := "jsjsonon";
    assert !StartsWith(s, "json") by { assert s[..4][2] != "json"[2]; }
    assert !StartsWith(s[1..], "json") by { assert s[1] != 'j'; }
    assert s[2..][..4] == "json";
    assert s[2..][4..] == "on";
    assert ReplaceAll("on", "json", "") == "on";
    assert ReplaceAll(s[2..], "json", "") == "on";
    assert s[1..][1..] == s[2..];
    assert ReplaceAll(s[1..], "json", "") == "s" + "on";
    assert ReplaceAll(s, "json", "") == [s[0]] + ReplaceAll(s[1..], "json", "");
    assert [s[0]] + ("s" + "on") == "json";
    assert "json" <= "json"[0..];
  }
}

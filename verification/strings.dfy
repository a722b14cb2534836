/**
 String helpers shared by the menu code: the `std::string` ordering used by
 std::map and std::sort, substring search (`find(...) != npos`), and joining
 and splitting on a separator character.
 */
module Strings {

  /** `a < b` for std::string: character-wise, a proper prefix sorts first. */
  predicate StrLt(a: string, b: string)
    decreases |a|
  {
    if |a| == 0 then |b| > 0
    else if |b| == 0 then false
    else if a[0] < b[0] then true
    else a[0] == b[0] && StrLt(a[1..], b[1..])
  }

  lemma {:induction false} StrLtIrreflexive(a: string)
    ensures !StrLt(a, a)
    decreases |a|
  {
    if |a| > 0 {
      StrLtIrreflexive(a[1..]);
    }
  }

  lemma {:induction false} StrLtTransitive(a: string, b: string, c: string)
    requires StrLt(a, b) && StrLt(b, c)
    ensures StrLt(a, c)
    decreases |a|
  {
    if |a| > 0 && a[0] == b[0] && b[0] == c[0] {
      StrLtTransitive(a[1..], b[1..], c[1..]);
    }
  }

  lemma {:induction false} StrLtTotal(a: string, b: string)
    requires a != b
    ensures StrLt(a, b) || StrLt(b, a)
    decreases |a|
  {
    if |a| > 0 && |b| > 0 && a[0] == b[0] {
      assert a == [a[0]] + a[1..] && b == [b[0]] + b[1..];
      StrLtTotal(a[1..], b[1..]);
    }
  }

  lemma StrLtAsymmetric(a: string, b: string)
    requires StrLt(a, b)
    ensures !StrLt(b, a)
  {
    if StrLt(b, a) {
      StrLtTransitive(a, b, a);
      StrLtIrreflexive(a);
    }
  }

  /** Ascending with no duplicates, the order std::map and std::set iterate in. */
  predicate StrictlySorted(s: seq<string>)
  {
    forall i, j :: 0 <= i < j < |s| ==> StrLt(s[i], s[j])
  }

  /** Inserts `x` into its place in an ascending list, unless it is already there. */
  function InsertSorted(s: seq<string>, x: string): (r: seq<string>)
    requires StrictlySorted(s)
    ensures StrictlySorted(r)
    ensures forall y :: y in r <==> y in s || y == x
    decreases |s|
  {
    if |s| == 0 then [x]
    else if x == s[0] then s
    else if StrLt(x, s[0]) then
      assert forall j :: 0 <= j < |s| ==> StrLt(x, s[j]) by {
        forall j | 0 <= j < |s| ensures StrLt(x, s[j]) {
          if j > 0 { StrLtTransitive(x, s[0], s[j]); }
        }
      }
      [x] + s
    else
      StrLtTotal(x, s[0]);
      var rest := InsertSorted(s[1..], x);
      assert forall y :: y in rest ==> StrLt(s[0], y) by {
        forall y | y in rest ensures StrLt(s[0], y) {
          if y != x {
            var k :| 0 <= k < |s[1..]| && s[1..][k] == y;
            assert s[k + 1] == y;
          }
        }
      }
      [s[0]] + rest
  }

  /** Whether `pat` occurs in `s` at position `i`. */
  predicate OccursAt(s: string, pat: string, i: nat)
  {
    i + |pat| <= |s| && s[i..i + |pat|] == pat
  }

  /** `s.find(pat) != npos`, computed by sliding along `s`. */
  predicate Contains(s: string, pat: string)
    decreases |s|
  {
    |pat| <= |s| && (s[..|pat|] == pat || (|s| > 0 && Contains(s[1..], pat)))
  }

  /** Contains agrees with "occurs at some position". */
  lemma {:induction false} ContainsIffOccurs(s: string, pat: string)
    ensures Contains(s, pat) <==> exists i: nat :: OccursAt(s, pat, i)
    decreases |s|
  {
    if |pat| <= |s| && |s| > 0 {
      ContainsIffOccurs(s[1..], pat);
      if Contains(s[1..], pat) {
        var i: nat :| OccursAt(s[1..], pat, i);
        assert s[i + 1..i + 1 + |pat|] == s[1..][i..i + |pat|];
        assert OccursAt(s, pat, i + 1);
      }
      if s[..|pat|] == pat {
        assert OccursAt(s, pat, 0);
      }
      if i: nat :| OccursAt(s, pat, i) {
        if i > 0 {
          assert s[1..][i - 1..i - 1 + |pat|] == s[i..i + |pat|];
          assert OccursAt(s[1..], pat, i - 1);
        } else {
          assert s[..|pat|] == s[0..0 + |pat|];
        }
      }
    } else if |pat| <= |s| {
      assert OccursAt(s, pat, 0) ==> s[..|pat|] == pat;
    }
  }

  /**
   Fields joined with `sep` by left-to-right accumulation,
   `path = f[0]; path = path + sep + f[j]` for each later field.
   */
  function Join(fields: seq<string>, sep: char): (s: string)
    requires 1 <= |fields|
    decreases |fields|
  {
    if |fields| == 1 then fields[0]
    else Join(fields[..|fields| - 1], sep) + [sep] + fields[|fields| - 1]
  }

  /** Number of occurrences of `c` in `s`. */
  function Count(s: string, c: char): nat
    decreases |s|
  {
    if |s| == 0 then 0 else Count(s[..|s| - 1], c) + (if s[|s| - 1] == c then 1 else 0)
  }

  /**
   Reference splitter: cuts `s` at every `sep`, keeping empty fields, so that
   a string with k separators has k + 1 fields none of which holds `sep`.
   */
  function Split(s: string, sep: char): (fields: seq<string>)
    ensures |fields| == Count(s, sep) + 1
    ensures forall i :: 0 <= i < |fields| ==> sep !in fields[i]
    decreases |s|
  {
    if |s| == 0 then [""]
    else
      var p := Split(s[..|s| - 1], sep);
      if s[|s| - 1] == sep then p + [""]
      else p[..|p| - 1] + [p[|p| - 1] + [s[|s| - 1]]]
  }

  lemma {:induction false} JoinSplit(s: string, sep: char)
    ensures Join(Split(s, sep), sep) == s
    decreases |s|
  {
    if |s| > 0 {
      var init := s[..|s| - 1];
      var p := Split(init, sep);
      JoinSplit(init, sep);
      var q := Split(s, sep);
      if s[|s| - 1] == sep {
        assert q[..|q| - 1] == p;
      } else {
        assert q[..|q| - 1] == p[..|p| - 1];
        if |p| > 1 {
          assert Join(p, sep) == Join(p[..|p| - 1], sep) + [sep] + p[|p| - 1];
        }
      }
      assert s == init + [s[|s| - 1]];
    }
  }
}

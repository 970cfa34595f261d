/** Go's `strings.ReplaceAll`, as far as getgpx uses it: a non-empty pattern, replaced left to
    right, non-overlapping. */
module GoStrings {

  /** Every non-overlapping occurrence of `pat` in `s`, scanning left to right, replaced by `rep`. */
  function ReplaceAll(s: string, pat: string, rep: string): (r: string)
    requires pat != []
    ensures |rep| <= |pat| ==> |r| <= |s|
    ensures |rep| == |pat| ==> |r| == |s|
    decreases |s|
  {
    if |s| < |pat| then s
    else if pat <= s then rep + ReplaceAll(s[|pat|..], pat, rep)
    else [s[0]] + ReplaceAll(s[1..], pat, rep)
  }

  /** Replacing a single character leaves a string without that character unchanged. */
  lemma {:induction false} ReplaceCharAbsent(s: string, c: char, rep: string)
    requires c !in s
    ensures ReplaceAll(s, [c], rep) == s
  {
    if s != [] {
      assert !([c] <= s) by { assert s[0] != c; }
      ReplaceCharAbsent(s[1..], c, rep);
      assert [s[0]] + s[1..] == s;
    }
  }

  /** Replacing a single character works character by character, so it distributes over
      concatenation. */
  lemma {:induction false} ReplaceCharAppend(a: string, b: string, c: char, rep: string)
    ensures ReplaceAll(a + b, [c], rep) == ReplaceAll(a, [c], rep) + ReplaceAll(b, [c], rep)
  {
    if a == [] {
      assert a + b == b;
    } else {
      var ab := a + b;
      assert ab[0] == a[0] && ab[1..] == a[1..] + b;
      assert ([c] <= ab) <==> ([c] <= a) by {
        assert ([c] <= ab) <==> ab[0] == c;
        assert ([c] <= a) <==> a[0] == c;
      }
      ReplaceCharAppend(a[1..], b, c, rep);
      var x := if a[0] == c then rep else [a[0]];
      assert ReplaceAll(ab, [c], rep) == x + ReplaceAll(ab[1..], [c], rep);
      assert ReplaceAll(a, [c], rep) == x + ReplaceAll(a[1..], [c], rep);
      AppendAssoc(x, ReplaceAll(a[1..], [c], rep), ReplaceAll(b, [c], rep));
    }
  }

  lemma AppendAssoc(a: string, b: string, c: string)
    ensures a + b + c == a + (b + c)
  {
  }
}

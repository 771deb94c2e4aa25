/** Sequence and string helpers that stand for the Python built-ins the
    pipeline relies on: `in` on strings, `str.join`, `str.split` and the
    flattening of a list of lists. */
module Text {

  /** `pat` occurs in `s` starting at index `i`. */
  predicate OccursAt(s: string, pat: string, i: int)
  {
    0 <= i && i + |pat| <= |s| && s[i..i + |pat|] == pat
  }

  /** Python's `pat in s` for strings: a case-sensitive substring test. */
  function Contains(s: string, pat: string): (b: bool)
    ensures b <==> exists i :: OccursAt(s, pat, i)
    decreases |s|
  {
    if |s| < |pat| then
      assert forall i :: !OccursAt(s, pat, i);
      false
    else if s[..|pat|] == pat then
      assert OccursAt(s, pat, 0);
      true
    else
      var rest := Contains(s[1..], pat);
      assert forall i :: OccursAt(s[1..], pat, i) <==> OccursAt(s, pat, i + 1) by {
        forall i ensures OccursAt(s[1..], pat, i) <==> OccursAt(s, pat, i + 1) {
          if 0 <= i && i + |pat| <= |s| - 1 {
            assert s[1..][i..i + |pat|] == s[i + 1..i + 1 + |pat|];
          }
        }
      }
      assert !OccursAt(s, pat, 0);
      assert (exists i :: OccursAt(s, pat, i)) ==> exists i :: OccursAt(s[1..], pat, i) by {
        if exists i :: OccursAt(s, pat, i) {
          var i :| OccursAt(s, pat, i);
          assert i != 0;
          assert OccursAt(s[1..], pat, i - 1);
        }
      }
      rest
  }

  /** Python's `sep.join(xs)`. */
  function Join<T>(xs: seq<seq<T>>, sep: seq<T>): seq<T>
  {
    if |xs| == 0 then []
    else if |xs| == 1 then xs[0]
    else xs[0] + sep + Join(xs[1..], sep)
  }

  /** Python's `s.split(sep)` for a one-character separator: the pieces
      between the separators, always at least one. */
  function Split<T(==)>(s: seq<T>, sep: T): (r: seq<seq<T>>)
    ensures |r| > 0
    ensures forall i :: 0 <= i < |r| ==> sep !in r[i]
  {
    if s == [] then [[]]
    else
      var rest := Split(s[1..], sep);
      if s[0] == sep then [[]] + rest
      else [[s[0]] + rest[0]] + rest[1..]
  }

  /** Flattening of a list of lists, `[x for xs in xss for x in xs]`. */
  function Concat<T>(xss: seq<seq<T>>): seq<T>
  {
    if xss == [] then [] else Concat(xss[..|xss| - 1]) + xss[|xss| - 1]
  }

  /** Splitting off a separator-free first piece. */
  lemma {:induction false} SplitCons<T>(a: seq<T>, sep: T, b: seq<T>)
    requires sep !in a
    ensures Split(a + [sep] + b, sep) == [a] + Split(b, sep)
    decreases |a|
  {
    if a == [] {
      assert a + [sep] + b == [sep] + b;
      assert ([sep] + b)[1..] == b;
    } else {
      SplitCons(a[1..], sep, b);
      assert (a + [sep] + b)[1..] == a[1..] + [sep] + b;
      assert [a[0]] + a[1..] == a;
    }
  }

  /** Splitting a separator-free piece yields that piece alone. */
  lemma {:induction false} SplitNoSep<T>(a: seq<T>, sep: T)
    requires sep !in a
    ensures Split(a, sep) == [a]
    decreases |a|
  {
    if a != [] {
      SplitNoSep(a[1..], sep);
      assert [a[0]] + a[1..] == a;
    }
  }

  /** Round trip: splitting what `Join` produced with a one-character
      separator gives back the pieces, when no piece holds the separator. */
  lemma {:induction false} SplitJoin<T>(xs: seq<seq<T>>, sep: T)
    requires |xs| > 0
    requires forall i :: 0 <= i < |xs| ==> sep !in xs[i]
    ensures Split(Join(xs, [sep]), sep) == xs
    decreases |xs|
  {
    if |xs| == 1 {
      SplitNoSep(xs[0], sep);
    } else {
      SplitJoin(xs[1..], sep);
      SplitCons(xs[0], sep, Join(xs[1..], [sep]));
      assert [xs[0]] + xs[1..] == xs;
    }
  }

  /** A value found in none of the pieces nor in the separator is not in
      the joined result. */
  lemma {:induction false} JoinAvoids<T>(xs: seq<seq<T>>, sep: seq<T>, c: T)
    requires c !in sep
    requires forall i :: 0 <= i < |xs| ==> c !in xs[i]
    ensures c !in Join(xs, sep)
    decreases |xs|
  {
    if |xs| > 1 {
      JoinAvoids(xs[1..], sep, c);
    }
  }

  /** Joining one more piece appends the separator and that piece. */
  lemma {:induction false} JoinSnoc<T>(xs: seq<seq<T>>, sep: seq<T>, x: seq<T>)
    requires |xs| > 0
    ensures Join(xs + [x], sep) == Join(xs, sep) + sep + x
    decreases |xs|
  {
    if |xs| > 1 {
      JoinSnoc(xs[1..], sep, x);
      assert (xs + [x])[1..] == xs[1..] + [x];
    }
  }

  /** Closing every line with the separator and flattening is joining the
      lines and closing the last one. */
  lemma {:induction false} ConcatClosedLines<T>(ls: seq<seq<T>>, sep: T)
    requires |ls| > 0
    ensures Concat(seq(|ls|, i requires 0 <= i < |ls| => ls[i] + [sep])) == Join(ls, [sep]) + [sep]
    decreases |ls|
  {
    var closed := seq(|ls|, i requires 0 <= i < |ls| => ls[i] + [sep]);
    if |ls| == 1 {
      assert closed[..0] == [];
    } else {
      var init := ls[..|ls| - 1];
      ConcatClosedLines(init, sep);
      assert closed[..|ls| - 1] == seq(|init|, i requires 0 <= i < |init| => init[i] + [sep]);
      JoinSnoc(init, [sep], ls[|ls| - 1]);
      assert init + [ls[|ls| - 1]] == ls;
    }
  }

  /** Flattening distributes over concatenation of the outer lists. */
  lemma {:induction false} ConcatAppend<T>(xss: seq<seq<T>>, yss: seq<seq<T>>)
    ensures Concat(xss + yss) == Concat(xss) + Concat(yss)
    decreases |yss|
  {
    if yss == [] {
      assert xss + yss == xss;
    } else {
      var init := yss[..|yss| - 1];
      ConcatAppend(xss, init);
      assert (xss + yss)[..|xss + yss| - 1] == xss + init;
    }
  }

  /** Every element of a flattened list comes from one of the inner lists,
      and every element of an inner list is in the flattened list. */
  lemma {:induction false} ConcatMember<T>(xss: seq<seq<T>>, x: T)
    ensures x in Concat(xss) <==> exists i :: 0 <= i < |xss| && x in xss[i]
    decreases |xss|
  {
    if xss != [] {
      var init := xss[..|xss| - 1];
      ConcatMember(init, x);
      if x in Concat(xss) && x !in xss[|xss| - 1] {
        var i :| 0 <= i < |init| && x in init[i];
        assert xss[i] == init[i];
      }
      if exists i :: 0 <= i < |xss| && x in xss[i] {
        var i :| 0 <= i < |xss| && x in xss[i];
        if i < |init| {
          assert x in init[i];
        }
      }
    }
  }

  /** Flattening a prefix of the lists gives a prefix of the flattening. */
  lemma {:induction false} ConcatPrefix<T>(xss: seq<seq<T>>, k: nat)
    requires k <= |xss|
    ensures Concat(xss[..k]) <= Concat(xss)
    decreases |xss|
  {
    if k < |xss| {
      var init := xss[..|xss| - 1];
      ConcatPrefix(init, k);
      assert init[..k] == xss[..k];
    } else {
      assert xss[..k] == xss;
    }
  }
}

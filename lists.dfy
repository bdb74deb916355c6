/** Generic list operations the app takes from the Kotlin standard library. */
module Lists {

  /** Kotlin's `List.filter`. */
  function Filter<T>(s: seq<T>, p: T -> bool): seq<T>
  {
    if s == [] then [] else (if p(s[0]) then [s[0]] else []) + Filter(s[1..], p)
  }

  /** Counted with multiplicity, `filter` keeps each element that passes, as
      often as it occurs, and drops each one that fails. */
  lemma {:induction false} FilterCount<T(!new)>(s: seq<T>, p: T -> bool)
    ensures forall x :: multiset(Filter(s, p))[x] == if p(x) then multiset(s)[x] else 0
    decreases |s|
  {
    if s != [] {
      FilterCount(s[1..], p);
      assert s == [s[0]] + s[1..];
    }
  }

  /** Everything `filter` returns passes, and it returns no more than it got. */
  lemma {:induction false} FilterPasses<T>(s: seq<T>, p: T -> bool)
    ensures forall i :: 0 <= i < |Filter(s, p)| ==> p(Filter(s, p)[i])
    ensures |Filter(s, p)| <= |s|
    decreases |s|
  {
    if s != [] {
      FilterPasses(s[1..], p);
      var t := Filter(s[1..], p);
      var h := if p(s[0]) then [s[0]] else [];
      forall i | 0 <= i < |h + t|
        ensures p((h + t)[i])
      {
        if i >= |h| {
          assert (h + t)[i] == t[i - |h|];
        }
      }
    }
  }

  /** Filtering a concatenation filters each part. */
  lemma {:induction false} FilterAppend<T(!new)>(a: seq<T>, b: seq<T>, p: T -> bool)
    ensures Filter(a + b, p) == Filter(a, p) + Filter(b, p)
    decreases |a|
  {
    if a == [] {
      assert a + b == b;
    } else {
      var c := a + b;
      assert c[0] == a[0] && c[1..] == a[1..] + b;
      FilterAppend(a[1..], b, p);
      var h, fa, fb := if p(a[0]) then [a[0]] else [], Filter(a[1..], p), Filter(b, p);
      assert Filter(c, p) == h + (fa + fb);
      assert Filter(a, p) == h + fa;
      assert h + (fa + fb) == (h + fa) + fb;
    }
  }

  /** A filter keeps a list whose every element passes it. */
  lemma {:induction false} FilterAllPass<T(!new)>(s: seq<T>, p: T -> bool)
    requires forall i :: 0 <= i < |s| ==> p(s[i])
    ensures Filter(s, p) == s
    decreases |s|
  {
    if s != [] {
      FilterAllPass(s[1..], p);
      assert s == [s[0]] + s[1..];
    }
  }
}

/** Python lists as the core uses them.  As stacks, the top is the LAST
    element: `append` pushes and `pop()` removes the last element. */
module Lists {

  function Top<T>(s: seq<T>): T
    requires |s| > 0
  {
    s[|s| - 1]
  }

  /** The stack left after `pop()`. */
  function Pop<T>(s: seq<T>): seq<T>
    requires |s| > 0
  {
    s[..|s| - 1]
  }

  /** The order in which repeated `pop()` hands out the elements of `s`. */
  function Reverse<T>(s: seq<T>): (r: seq<T>)
    ensures |r| == |s|
    ensures forall i :: 0 <= i < |s| ==> r[i] == s[|s| - 1 - i]
  {
    if s == [] then [] else [Top(s)] + Reverse(Pop(s))
  }

  /** The elements of `s` satisfying `keep`, in their original order. */
  function Filter<T>(s: seq<T>, keep: T -> bool): seq<T> {
    if s == [] then []
    else Filter(Pop(s), keep) + (if keep(Top(s)) then [Top(s)] else [])
  }

  lemma {:induction false} ReverseMultiset<T>(s: seq<T>)
    ensures multiset(Reverse(s)) == multiset(s)
  {
    if s != [] {
      ReverseMultiset(Pop(s));
      assert Reverse(s) == [Top(s)] + Reverse(Pop(s));
      assert s == Pop(s) + [Top(s)];
    }
  }

  /** How often `Filter` keeps each value depends only on how often it
      occurs, not on the order. */
  lemma {:induction false} FilterMultiset<T>(s: seq<T>, keep: T -> bool)
    ensures forall x :: multiset(Filter(s, keep))[x] == if keep(x) then multiset(s)[x] else 0
  {
    if s != [] {
      FilterMultiset(Pop(s), keep);
      assert s == Pop(s) + [Top(s)];
    }
  }

  /** Reordering a sequence does not change how many elements `Filter`
      keeps. */
  lemma FilterSameCount<T>(a: seq<T>, b: seq<T>, keep: T -> bool)
    requires multiset(a) == multiset(b)
    ensures |Filter(a, keep)| == |Filter(b, keep)|
  {
    FilterMultiset(a, keep);
    FilterMultiset(b, keep);
    SameCounts(multiset(Filter(a, keep)), multiset(Filter(b, keep)));
  }

  lemma SameCounts<T>(a: multiset<T>, b: multiset<T>)
    requires forall x :: a[x] == b[x]
    ensures |a| == |b|
  {
    assert a == b;
  }

  lemma FilterAppend<T>(a: seq<T>, b: seq<T>, keep: T -> bool)
    ensures Filter(a + b, keep) == Filter(a, keep) + Filter(b, keep)
  {
    if b != [] {
      assert Pop(a + b) == a + Pop(b);
      assert Top(a + b) == Top(b);
      FilterAppend(a, Pop(b), keep);
    } else {
      assert a + b == a;
    }
  }

  lemma FilterOne<T>(x: T, keep: T -> bool)
    ensures Filter([x], keep) == if keep(x) then [x] else []
  {
    assert Pop([x]) == [];
  }

  /** Filtering keeps everything when every element is kept. */
  lemma {:induction false} FilterAll<T>(s: seq<T>, keep: T -> bool)
    requires forall i :: 0 <= i < |s| ==> keep(s[i])
    ensures Filter(s, keep) == s
  {
    if s != [] {
      var p, t := Pop(s), Top(s);
      assert s == p + [t];
      assert keep(t) by {
        assert t == s[|s| - 1];
      }
      forall i | 0 <= i < |p| ensures keep(p[i]) {
        assert p[i] == s[i];
      }
      FilterAll(p, keep);
    }
  }

  /** Filtering keeps nothing when no element is kept. */
  lemma {:induction false} FilterNone<T>(s: seq<T>, keep: T -> bool)
    requires forall i :: 0 <= i < |s| ==> !keep(s[i])
    ensures Filter(s, keep) == []
  {
    if s != [] {
      var p := Pop(s);
      assert forall i :: 0 <= i < |p| ==> !keep(p[i]) by {
        forall i | 0 <= i < |p| ensures !keep(p[i]) {
          assert p[i] == s[i];
        }
      }
      FilterNone(p, keep);
      assert !keep(Top(s));
    }
  }

  lemma FilterReverseNone<T>(s: seq<T>, keep: T -> bool)
    requires forall i :: 0 <= i < |s| ==> !keep(s[i])
    ensures Filter(Reverse(s), keep) == []
  {
    FilterNone(Reverse(s), keep);
  }
}

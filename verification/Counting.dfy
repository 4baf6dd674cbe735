/** Counting by position, and the ranks of a sorted list. */
module Counting {
  import opened Ordering

  function Count<T(!new)>(s: seq<T>, p: T -> bool): (n: nat)
    ensures n <= |s|
  {
    if s == [] then 0 else (if p(s[0]) then 1 else 0) + Count(s[1..], p)
  }

  /** The positions of the elements that satisfy `p`. */
  ghost function Where<T(!new)>(s: seq<T>, p: T -> bool): set<nat> { set k: nat | k < |s| && p(s[k]) }

  lemma {:induction false} CountAdds<T(!new)>(s: seq<T>, t: seq<T>, p: T -> bool)
    ensures Count(s + t, p) == Count(s, p) + Count(t, p)
  {
    if s == [] {
      assert s + t == t;
    } else {
      assert (s + t)[1..] == s[1..] + t;
      CountAdds(s[1..], t, p);
    }
  }

  lemma {:induction false} CountIsSize<T(!new)>(s: seq<T>, p: T -> bool)
    ensures Count(s, p) == |Where(s, p)|
  {
    if s != [] {
      var last := |s| - 1;
      CountIsSize(s[..last], p);
      assert s == s[..last] + [s[last]];
      CountAdds(s[..last], [s[last]], p);
      assert Where(s, p) == if p(s[last]) then Where(s[..last], p) + {last} else Where(s[..last], p);
    }
  }

  lemma {:induction false} CountOfAll<T(!new)>(s: seq<T>, p: T -> bool)
    ensures (forall k :: 0 <= k < |s| ==> p(s[k])) ==> Count(s, p) == |s|
    ensures (forall k :: 0 <= k < |s| ==> !p(s[k])) ==> Count(s, p) == 0
  {
    if s != [] { CountOfAll(s[1..], p); }
  }

  lemma {:induction false} CountIsMonotone<T(!new)>(s: seq<T>, p: T -> bool, q: T -> bool)
    requires forall x :: p(x) ==> q(x)
    ensures Count(s, p) <= Count(s, q)
  {
    if s != [] { CountIsMonotone(s[1..], p, q); }
  }

  lemma {:induction false} InsertCounts<T(!new)>(x: T, s: seq<T>, le: (T, T) -> bool, p: T -> bool)
    ensures Count(Insert(x, s, le), p) == (if p(x) then 1 else 0) + Count(s, p)
  {
    if s != [] && !le(x, s[0]) { InsertCounts(x, s[1..], le, p); }
  }

  lemma {:induction false} SortCounts<T(!new)>(s: seq<T>, le: (T, T) -> bool, p: T -> bool)
    ensures Count(Sort(s, le), p) == Count(s, p)
  {
    if s != [] {
      SortCounts(s[1..], le, p);
      InsertCounts(s[0], Sort(s[1..], le), le, p);
    }
  }
}

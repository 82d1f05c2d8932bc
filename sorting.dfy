/**
 * A stable sort by a "comes before" relation: the behaviour of Python's `list.sort`
 * (which is stable and only asks `<` of the keys), and the order the model gives to a
 * SQL `ORDER BY` (rows that tie stay in store order).
 */
module Sorting {

  /** `lt` is asymmetric and its complement is transitive: a strict weak order. */
  ghost predicate StrictWeakOrder<T(!new)>(lt: (T, T) -> bool) {
    && (forall x, y :: lt(x, y) ==> !lt(y, x))
    && (forall x, y, z :: !lt(x, y) && !lt(y, z) ==> !lt(x, z))
  }

  /** No element comes strictly before an element placed to its left. */
  ghost predicate Sorted<T>(s: seq<T>, lt: (T, T) -> bool) {
    forall i, j :: 0 <= i < j < |s| ==> !lt(s[j], s[i])
  }

  /** Neither comes before the other: the two keys tie. */
  predicate Ties<T>(a: T, b: T, lt: (T, T) -> bool) {
    !lt(a, b) && !lt(b, a)
  }

  /** The elements of `s` that tie with `t`, in their order in `s`. */
  function TiesWith<T>(s: seq<T>, t: T, lt: (T, T) -> bool): seq<T> {
    if s == [] then []
    else TiesWith(s[..|s| - 1], t, lt) + (if Ties(s[|s| - 1], t, lt) then [s[|s| - 1]] else [])
  }

  /** Place `x` after every element it does not come before, scanning from the right. */
  function Insert<T>(x: T, s: seq<T>, lt: (T, T) -> bool): seq<T> {
    if s == [] || !lt(x, s[|s| - 1]) then s + [x]
    else Insert(x, s[..|s| - 1], lt) + [s[|s| - 1]]
  }

  /** Stable insertion sort: the reference definition of the sorted list. */
  function Sort<T>(s: seq<T>, lt: (T, T) -> bool): seq<T> {
    if s == [] then [] else Insert(s[|s| - 1], Sort(s[..|s| - 1], lt), lt)
  }

  lemma {:induction false} InsertPermutes<T>(x: T, s: seq<T>, lt: (T, T) -> bool)
    ensures multiset(Insert(x, s, lt)) == multiset(s) + multiset{x}
  {
    if s != [] && lt(x, s[|s| - 1]) {
      InsertPermutes(x, s[..|s| - 1], lt);
      assert s == s[..|s| - 1] + [s[|s| - 1]];
    }
  }

  lemma {:induction false} InsertSorted<T(!new)>(x: T, s: seq<T>, lt: (T, T) -> bool)
    requires StrictWeakOrder(lt) && Sorted(s, lt)
    ensures Sorted(Insert(x, s, lt), lt)
  {
    if s == [] {
    } else if !lt(x, s[|s| - 1]) {
      var r := s + [x];
      forall i, j | 0 <= i < j < |r| ensures !lt(r[j], r[i]) {
        if j == |s| && i < |s| - 1 {
          assert !lt(s[|s| - 1], s[i]);
        }
      }
    } else {
      var init, last := s[..|s| - 1], s[|s| - 1];
      assert Sorted(init, lt);
      InsertSorted(x, init, lt);
      InsertPermutes(x, init, lt);
      var ins := Insert(x, init, lt);
      var r := ins + [last];
      forall i | 0 <= i < |ins| ensures !lt(last, ins[i]) {
        assert ins[i] in multiset(ins);
        if ins[i] != x {
          assert ins[i] in multiset(init);
          var k :| 0 <= k < |init| && init[k] == ins[i];
          assert s[k] == init[k];
        }
      }
      forall i, j | 0 <= i < j < |r| ensures !lt(r[j], r[i]) {
        if j == |ins| { assert r[i] == ins[i]; }
      }
    }
  }

  lemma {:induction false} TiesWithConcat<T>(a: seq<T>, b: seq<T>, t: T, lt: (T, T) -> bool)
    ensures TiesWith(a + b, t, lt) == TiesWith(a, t, lt) + TiesWith(b, t, lt)
  {
    if b != [] {
      var bInit := b[..|b| - 1];
      assert (a + b)[..|a + b| - 1] == a + bInit;
      TiesWithConcat(a, bInit, t, lt);
    } else {
      assert a + b == a;
    }
  }

  lemma TiesWithSingle<T>(x: T, t: T, lt: (T, T) -> bool)
    ensures TiesWith([x], t, lt) == if Ties(x, t, lt) then [x] else []
  {
  }

  /** An element cannot tie with `t` together with an element it comes before. */
  lemma TiesCommute<T(!new)>(x: T, y: T, t: T, lt: (T, T) -> bool)
    requires StrictWeakOrder(lt) && lt(x, y)
    ensures TiesWith([x], t, lt) + TiesWith([y], t, lt) == TiesWith([y], t, lt) + TiesWith([x], t, lt)
  {
    TiesWithSingle(x, t, lt);
    TiesWithSingle(y, t, lt);
    assert !(Ties(x, t, lt) && Ties(y, t, lt));
  }

  lemma {:induction false} InsertKeepsTies<T(!new)>(x: T, s: seq<T>, t: T, lt: (T, T) -> bool)
    requires StrictWeakOrder(lt)
    ensures TiesWith(Insert(x, s, lt), t, lt) == TiesWith(s + [x], t, lt)
  {
    if s != [] && lt(x, s[|s| - 1]) {
      var init, last := s[..|s| - 1], s[|s| - 1];
      var a, fx, fl := TiesWith(init, t, lt), TiesWith([x], t, lt), TiesWith([last], t, lt);
      assert s == init + [last];
      calc {
        TiesWith(Insert(x, s, lt), t, lt);
        { assert Insert(x, s, lt) == Insert(x, init, lt) + [last];
          TiesWithConcat(Insert(x, init, lt), [last], t, lt); }
        TiesWith(Insert(x, init, lt), t, lt) + fl;
        { InsertKeepsTies(x, init, t, lt); TiesWithConcat(init, [x], t, lt); }
        a + fx + fl;
        { TiesCommute(x, last, t, lt); }
        a + (fl + fx);
        { TiesWithConcat(init, [last], t, lt); }
        TiesWith(s, t, lt) + fx;
        { TiesWithConcat(s, [x], t, lt); }
        TiesWith(s + [x], t, lt);
      }
    }
  }

  /** The sorted list is ordered. */
  lemma {:induction false} SortSorted<T(!new)>(s: seq<T>, lt: (T, T) -> bool)
    requires StrictWeakOrder(lt)
    ensures Sorted(Sort(s, lt), lt)
  {
    if s != [] {
      SortSorted(s[..|s| - 1], lt);
      InsertSorted(s[|s| - 1], Sort(s[..|s| - 1], lt), lt);
    }
  }

  /** The sorted list holds exactly the input's elements. */
  lemma {:induction false} SortPermutes<T>(s: seq<T>, lt: (T, T) -> bool)
    ensures multiset(Sort(s, lt)) == multiset(s)
  {
    if s != [] {
      SortPermutes(s[..|s| - 1], lt);
      InsertPermutes(s[|s| - 1], Sort(s[..|s| - 1], lt), lt);
      assert s == s[..|s| - 1] + [s[|s| - 1]];
    }
  }

  /** Stability: elements with tying keys keep their input order. */
  lemma {:induction false} SortStable<T(!new)>(s: seq<T>, t: T, lt: (T, T) -> bool)
    requires StrictWeakOrder(lt)
    ensures TiesWith(Sort(s, lt), t, lt) == TiesWith(s, t, lt)
  {
    if s != [] {
      var init, last := s[..|s| - 1], s[|s| - 1];
      var sorted, fl := Sort(init, lt), TiesWith([last], t, lt);
      assert s == init + [last];
      calc {
        TiesWith(Sort(s, lt), t, lt);
        { assert Sort(s, lt) == Insert(last, sorted, lt);
          InsertKeepsTies(last, sorted, t, lt); }
        TiesWith(sorted + [last], t, lt);
        { TiesWithConcat(sorted, [last], t, lt); }
        TiesWith(sorted, t, lt) + fl;
        { SortStable(init, t, lt); }
        TiesWith(init, t, lt) + fl;
        { TiesWithConcat(init, [last], t, lt); }
        TiesWith(s, t, lt);
      }
    }
  }

  lemma {:induction false} SortLength<T>(s: seq<T>, lt: (T, T) -> bool)
    ensures |Sort(s, lt)| == |s|
  {
    SortPermutes(s, lt);
    assert |multiset(Sort(s, lt))| == |multiset(s)|;
  }
}

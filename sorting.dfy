/**
 * Comparator-driven sorting of values: the model of `Array.prototype.sort` with a
 * comparator and of pandas `sort_values`. The sort is a stable insertion sort, so
 * tied elements keep their input order (`SortByStable`), as `Array.prototype.sort`
 * does in the JavaScript engines the client runs on. pandas' default sort is not
 * stable; for it only the order and the permutation are used.
 */
module Sorting {

  /** `le` is total and transitive, so it orders every pair of values consistently. */
  ghost predicate TotalPreorder<T(!new)>(le: (T, T) -> bool)
  {
    (forall a, b :: le(a, b) || le(b, a)) &&
    (forall a, b, c :: le(a, b) && le(b, c) ==> le(a, c))
  }

  /** Every element is `le` every later element. */
  ghost predicate SortedBy<T>(s: seq<T>, le: (T, T) -> bool)
  {
    forall i, j :: 0 <= i < j < |s| ==> le(s[i], s[j])
  }

  /** `x` inserted into `t` after the leading elements that are `le` it. */
  function Insert<T>(x: T, t: seq<T>, le: (T, T) -> bool): (r: seq<T>)
    ensures |r| == |t| + 1
    ensures multiset(r) == multiset(t) + multiset{x}
  {
    if t == [] || !le(t[0], x) then [x] + t
    else
      assert t == [t[0]] + t[1..];
      [t[0]] + Insert(x, t[1..], le)
  }

  /** The elements of `s` ordered by `le`. */
  function SortBy<T>(s: seq<T>, le: (T, T) -> bool): (r: seq<T>)
    ensures |r| == |s|
    ensures multiset(r) == multiset(s)
  {
    if s == [] then []
    else
      assert s == s[..|s| - 1] + [s[|s| - 1]];
      Insert(s[|s| - 1], SortBy(s[..|s| - 1], le), le)
  }

  lemma {:induction false} InsertSorted<T(!new)>(x: T, t: seq<T>, le: (T, T) -> bool)
    requires TotalPreorder(le)
    requires SortedBy(t, le)
    ensures SortedBy(Insert(x, t, le), le)
  {
    if t == [] || !le(t[0], x) {
      if t != [] {
        assert le(x, t[0]);
      }
    } else {
      InsertSorted(x, t[1..], le);
      var r := Insert(x, t, le);
      forall j | 0 < j < |r|
        ensures le(r[0], r[j])
      {
        var k := Insert(x, t[1..], le);
        assert r[j] == k[j - 1];
        assert k[j - 1] in multiset(t[1..]) + multiset{x};
        if k[j - 1] == x {
        } else {
          assert k[j - 1] in t[1..];
          var m :| 0 <= m < |t[1..]| && t[1..][m] == k[j - 1];
          assert t[1 + m] == k[j - 1];
        }
      }
    }
  }

  /** The sort puts its output in `le` order whenever `le` is a total preorder. */
  lemma {:induction false} SortBySorted<T(!new)>(s: seq<T>, le: (T, T) -> bool)
    requires TotalPreorder(le)
    ensures SortedBy(SortBy(s, le), le)
  {
    if s != [] {
      SortBySorted(s[..|s| - 1], le);
      InsertSorted(s[|s| - 1], SortBy(s[..|s| - 1], le), le);
    }
  }

  /** Inserting an element that every element is `le` appends it. */
  lemma {:induction false} InsertLast<T>(x: T, t: seq<T>, le: (T, T) -> bool)
    requires forall i :: 0 <= i < |t| ==> le(t[i], x)
    ensures Insert(x, t, le) == t + [x]
  {
    if t != [] {
      InsertLast(x, t[1..], le);
      assert [t[0]] + (t[1..] + [x]) == t + [x];
    }
  }

  /** Sorting input that is already in order returns it unchanged. */
  lemma {:induction false} SortByIdentity<T>(s: seq<T>, le: (T, T) -> bool)
    requires SortedBy(s, le)
    ensures SortBy(s, le) == s
  {
    if s != [] {
      var init := s[..|s| - 1];
      assert SortedBy(init, le);
      SortByIdentity(init, le);
      InsertLast(s[|s| - 1], init, le);
      assert init + [s[|s| - 1]] == s;
    }
  }

  /** `a` and `b` are tied under `le`: each is `le` the other. */
  ghost predicate Tied<T>(le: (T, T) -> bool, a: T, b: T)
  {
    le(a, b) && le(b, a)
  }

  /** The elements of `s` tied with `y`, in their order in `s`. */
  ghost function TiedWith<T>(s: seq<T>, y: T, le: (T, T) -> bool): seq<T>
  {
    if s == [] then []
    else (if Tied(le, s[0], y) then [s[0]] else []) + TiedWith(s[1..], y, le)
  }

  lemma {:induction false} TiedWithAppend<T>(a: seq<T>, b: seq<T>, y: T, le: (T, T) -> bool)
    ensures TiedWith(a + b, y, le) == TiedWith(a, y, le) + TiedWith(b, y, le)
  {
    if a == [] {
      assert a + b == b;
    } else {
      var head := if Tied(le, a[0], y) then [a[0]] else [];
      assert (a + b)[0] == a[0] && (a + b)[1..] == a[1..] + b;
      assert TiedWith(a + b, y, le) == head + TiedWith(a[1..] + b, y, le);
      TiedWithAppend(a[1..], b, y, le);
      assert TiedWith(a, y, le) == head + TiedWith(a[1..], y, le);
    }
  }

  lemma {:induction false} NoneTied<T>(s: seq<T>, y: T, le: (T, T) -> bool)
    requires forall i :: 0 <= i < |s| ==> !Tied(le, s[i], y)
    ensures TiedWith(s, y, le) == []
  {
    if s != [] {
      NoneTied(s[1..], y, le);
    }
  }

  /** In sorted input, nothing from the first element not `le` `x` onwards is tied with `x`. */
  lemma NoTiesAfterStop<T(!new)>(x: T, t: seq<T>, y: T, le: (T, T) -> bool)
    requires TotalPreorder(le)
    requires SortedBy(t, le)
    requires t != [] && !le(t[0], x) && Tied(le, x, y)
    ensures TiedWith(t, y, le) == []
  {
    forall i | 0 <= i < |t| ensures !Tied(le, t[i], y) {
      if i > 0 {
        assert le(t[0], t[i]);
      }
    }
    NoneTied(t, y, le);
  }

  /** Inserting into sorted input puts `x` after every element tied with it. */
  lemma {:induction false} InsertStable<T(!new)>(x: T, t: seq<T>, y: T, le: (T, T) -> bool)
    requires TotalPreorder(le)
    requires SortedBy(t, le)
    ensures TiedWith(Insert(x, t, le), y, le) == TiedWith(t, y, le) + TiedWith([x], y, le)
  {
    assert TiedWith([x], y, le) == (if Tied(le, x, y) then [x] else []) + TiedWith([], y, le);
    if t == [] || !le(t[0], x) {
      assert Insert(x, t, le) == [x] + t;
      TiedWithAppend([x], t, y, le);
      if Tied(le, x, y) && t != [] {
        NoTiesAfterStop(x, t, y, le);
      }
    } else {
      var rest := Insert(x, t[1..], le);
      assert Insert(x, t, le) == [t[0]] + rest;
      assert SortedBy(t[1..], le);
      InsertStable(x, t[1..], y, le);
      assert ([t[0]] + rest)[1..] == rest;
    }
  }

  /** The sort is stable: for every `y`, the elements tied with `y` keep their input order. */
  lemma {:induction false} SortByStable<T(!new)>(s: seq<T>, y: T, le: (T, T) -> bool)
    requires TotalPreorder(le)
    ensures TiedWith(SortBy(s, le), y, le) == TiedWith(s, y, le)
  {
    if s != [] {
      var init := s[..|s| - 1];
      SortByStable(init, y, le);
      SortBySorted(init, le);
      InsertStable(s[|s| - 1], SortBy(init, le), y, le);
      TiedWithAppend(init, [s[|s| - 1]], y, le);
      assert init + [s[|s| - 1]] == s;
    }
  }
}

/** What `Array.prototype.sort` and `slice` promise, in the form the services use them:
    a stable sort by descending key, and a prefix taken with `slice(0, limit)`. */
module StableSort {

  /** Puts x behind every element of the descending list whose key is at least its own. */
  function InsertDesc<T>(sorted: seq<T>, x: T, key: T -> real): seq<T> {
    if sorted == [] then [x]
    else
      var last := sorted[|sorted| - 1];
      if key(last) >= key(x) then sorted + [x]
      else InsertDesc(sorted[..|sorted| - 1], x, key) + [last]
  }

  /** A stable sort by descending key: elements are inserted in the order they come. */
  function SortDesc<T>(s: seq<T>, key: T -> real): seq<T> {
    if s == [] then [] else InsertDesc(SortDesc(s[..|s| - 1], key), s[|s| - 1], key)
  }

  ghost predicate Descending<T>(s: seq<T>, key: T -> real) {
    forall i, j :: 0 <= i < j < |s| ==> key(s[i]) >= key(s[j])
  }

  /** The elements of s with key k, in order. */
  function WithKey<T>(s: seq<T>, key: T -> real, k: real): seq<T> {
    if s == [] then []
    else WithKey(s[..|s| - 1], key, k) + if key(s[|s| - 1]) == k then [s[|s| - 1]] else []
  }

  lemma {:induction false} InsertDescElements<T>(sorted: seq<T>, x: T, key: T -> real)
    ensures multiset(InsertDesc(sorted, x, key)) == multiset(sorted) + multiset{x}
    ensures |InsertDesc(sorted, x, key)| == |sorted| + 1
  {
    if sorted != [] {
      assert sorted == sorted[..|sorted| - 1] + [sorted[|sorted| - 1]];
      InsertDescElements(sorted[..|sorted| - 1], x, key);
    }
  }

  lemma {:induction false} InsertDescOrder<T>(sorted: seq<T>, x: T, key: T -> real)
    requires Descending(sorted, key)
    ensures Descending(InsertDesc(sorted, x, key), key)
    ensures InsertDesc(sorted, x, key) != []
    ensures InsertDesc(sorted, x, key)[0] == if sorted == [] || key(sorted[0]) < key(x) then x else sorted[0]
  {
    if sorted != [] {
      var init, last := sorted[..|sorted| - 1], sorted[|sorted| - 1];
      if key(last) < key(x) {
        InsertDescOrder(init, x, key);
        InsertDescAbove(init, x, key, key(last));
      }
    }
  }

  lemma {:induction false} InsertDescAbove<T>(sorted: seq<T>, x: T, key: T -> real, bound: real)
    requires key(x) >= bound && forall i :: 0 <= i < |sorted| ==> key(sorted[i]) >= bound
    ensures forall i :: 0 <= i < |InsertDesc(sorted, x, key)| ==> key(InsertDesc(sorted, x, key)[i]) >= bound
  {
    if sorted != [] {
      InsertDescAbove(sorted[..|sorted| - 1], x, key, bound);
    }
  }

  lemma {:induction false} WithKeyInsert<T>(sorted: seq<T>, x: T, key: T -> real, k: real)
    requires Descending(sorted, key)
    ensures WithKey(InsertDesc(sorted, x, key), key, k)
            == WithKey(sorted, key, k) + if key(x) == k then [x] else []
  {
    if sorted == [] {
      assert [x][..0] == [];
    } else {
      var init, last := sorted[..|sorted| - 1], sorted[|sorted| - 1];
      if key(last) >= key(x) {
        assert (sorted + [x])[..|sorted|] == sorted;
      } else {
        WithKeyInsert(init, x, key, k);
        var r := InsertDesc(init, x, key);
        assert (r + [last])[..|r|] == r;
      }
    }
  }

  /** The sort is a descending permutation, and stable: equal keys keep their order. */
  lemma {:induction false} SortDescFacts<T>(s: seq<T>, key: T -> real)
    ensures Descending(SortDesc(s, key), key)
    ensures multiset(SortDesc(s, key)) == multiset(s)
    ensures |SortDesc(s, key)| == |s|
    ensures forall k :: WithKey(SortDesc(s, key), key, k) == WithKey(s, key, k)
  {
    if s != [] {
      var init, last := s[..|s| - 1], s[|s| - 1];
      assert s == init + [last];
      SortDescFacts(init, key);
      InsertDescElements(SortDesc(init, key), last, key);
      InsertDescOrder(SortDesc(init, key), last, key);
      forall k ensures WithKey(SortDesc(s, key), key, k) == WithKey(s, key, k) {
        WithKeyInsert(SortDesc(init, key), last, key, k);
      }
    }
  }

  lemma {:induction false} WithKeyMember<T>(s: seq<T>, key: T -> real, k: real)
    ensures WithKey(s, key, k) != [] ==> exists i :: 0 <= i < |s| && key(s[i]) == k
  {
    if s != [] && key(s[|s| - 1]) != k {
      WithKeyMember(s[..|s| - 1], key, k);
    }
  }

  lemma LastRun<T>(r: seq<T>, q: seq<T>, key: T -> real)
    requires forall k :: WithKey(r, key, k) == WithKey(q, key, k)
    ensures r != [] ==> WithKey(q, key, key(r[|r| - 1])) != [] && q != []
  {
    if r != [] {
      assert WithKey(r, key, key(r[|r| - 1])) == WithKey(q, key, key(r[|r| - 1]));
    }
  }

  /** A descending list is determined by its equal-key runs, so `SortDesc` is the only
      stable descending arrangement of a list: every stable sort computes it. */
  lemma {:induction false} SortDescUnique<T>(r: seq<T>, q: seq<T>, key: T -> real)
    requires Descending(r, key) && Descending(q, key)
    requires forall k :: WithKey(r, key, k) == WithKey(q, key, k)
    ensures r == q
  {
    LastRun(r, q, key);
    LastRun(q, r, key);
    if r != [] {
      var kr := key(r[|r| - 1]);
      assert WithKey(r, key, kr) == WithKey(q, key, kr);
      WithKeyMember(q, key, kr);
      var kq := key(q[|q| - 1]);
      assert WithKey(r, key, kq) == WithKey(q, key, kq);
      WithKeyMember(r, key, kq);
      assert kr == kq;
      var r', q' := r[..|r| - 1], q[..|q| - 1];
      forall k ensures WithKey(r', key, k) == WithKey(q', key, k) {
        var ar, aq := WithKey(r', key, k), WithKey(q', key, k);
        assert WithKey(r, key, k) == WithKey(q, key, k);
        assert WithKey(r, key, k) == ar + if k == kr then [r[|r| - 1]] else [];
        assert WithKey(q, key, k) == aq + if k == kr then [q[|q| - 1]] else [];
        assert ar == WithKey(r, key, k)[..|ar|] && aq == WithKey(q, key, k)[..|aq|];
      }
      SortDescUnique(r', q', key);
      assert WithKey(r, key, kr)[|WithKey(r, key, kr)| - 1] == r[|r| - 1];
      assert r == r' + [r[|r| - 1]] && q == q' + [q[|q| - 1]];
    }
  }

  /** Appending an element changes the head only when it is strictly better. */
  lemma SortDescHead<T>(s: seq<T>, x: T, key: T -> real)
    ensures |SortDesc(s, key)| == |s| && |SortDesc(s + [x], key)| == |s| + 1
    ensures SortDesc(s + [x], key)[0]
            == if s == [] || key(SortDesc(s, key)[0]) < key(x) then x else SortDesc(s, key)[0]
  {
    assert (s + [x])[..|s|] == s;
    SortDescFacts(s, key);
    InsertDescElements(SortDesc(s, key), x, key);
    InsertDescOrder(SortDesc(s, key), x, key);
  }

  /** `s.slice(0, end)`: a negative end counts from the back, a large one is the whole list. */
  function SliceTo<T>(s: seq<T>, end: int): (r: seq<T>)
    ensures r <= s
    ensures 0 <= end ==> |r| == if end <= |s| then end else |s|
  {
    if end < 0 then s[..if |s| + end < 0 then 0 else |s| + end]
    else if end <= |s| then s[..end]
    else s
  }

  // ----- order -----

  /** x stands before y in s. */
  ghost predicate Before<T>(s: seq<T>, x: T, y: T) { exists i, j :: 0 <= i < j < |s| && s[i] == x && s[j] == y }

  lemma BeforeSnoc<T>(s: seq<T>, last: T, x: T, y: T)
    ensures Before(s + [last], x, y) <==> Before(s, x, y) || (x in s && y == last)
  {
    var t := s + [last];
    if i, j :| 0 <= i < j < |s| && s[i] == x && s[j] == y { assert t[i] == x && t[j] == y; }
    if x in s && y == last {
      var i :| 0 <= i < |s| && s[i] == x;
      assert t[i] == x && t[|s|] == y;
    }
    if Before(t, x, y) {
      var i, j :| 0 <= i < j < |t| && t[i] == x && t[j] == y;
      assert s[i] == x;
      if j < |s| { assert s[j] == y; }
    }
  }

  lemma {:induction false} WithKeyMembers<T>(s: seq<T>, key: T -> real, k: real, x: T)
    ensures x in WithKey(s, key, k) <==> x in s && key(x) == k
  {
    if s != [] {
      WithKeyMembers(s[..|s| - 1], key, k, x);
      assert s == s[..|s| - 1] + [s[|s| - 1]];
    }
  }

  /** Picking the elements of one key keeps their order. */
  lemma {:induction false} WithKeyBefore<T>(s: seq<T>, key: T -> real, x: T, y: T)
    requires key(x) == key(y)
    ensures Before(WithKey(s, key, key(x)), x, y) <==> Before(s, x, y)
  {
    if s != [] {
      var init, last := s[..|s| - 1], s[|s| - 1];
      assert s == init + [last];
      WithKeyBefore(init, key, x, y);
      WithKeyMembers(init, key, key(x), x);
      BeforeSnoc(init, last, x, y);
      if key(last) == key(x) {
        BeforeSnoc(WithKey(init, key, key(x)), last, x, y);
      } else {
        assert WithKey(s, key, key(x)) == WithKey(init, key, key(x));
      }
    }
  }
}

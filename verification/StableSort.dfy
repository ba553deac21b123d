/** Stable sorting by an integer key, and sequences seen as orders on their elements. */
module StableSort {
  import opened Seqs

  // Stable insertion: after every element whose key is not larger.
  function Insert<T(==, !new)>(id: T, key: map<T, int>, sorted: seq<T>): (r: seq<T>)
    requires id in key && forall x :: x in sorted ==> x in key
    ensures forall x :: x in r <==> x == id || x in sorted
  {
    if sorted == [] then [id]
    else if key[sorted[|sorted| - 1]] <= key[id] then sorted + [id]
    else Insert(id, key, sorted[..|sorted| - 1]) + [sorted[|sorted| - 1]]
  }

  lemma {:induction false} InsertElements<T(!new)>(id: T, key: map<T, int>, sorted: seq<T>)
    requires id in key && forall x :: x in sorted ==> x in key
    ensures multiset(Insert(id, key, sorted)) == multiset(sorted) + multiset{id}
  {
    if sorted != [] && key[sorted[|sorted| - 1]] > key[id] {
      var front, last := sorted[..|sorted| - 1], sorted[|sorted| - 1];
      InsertElements(id, key, front);
      assert sorted == front + [last];
    }
  }

  // The listed elements that have a key, sorted by it; equal keys keep their order.
  function SortBy<T(==, !new)>(ids: seq<T>, key: map<T, int>): (r: seq<T>)
    ensures forall x :: x in r ==> x in key
  {
    if ids == [] then []
    else
      var id, before := ids[|ids| - 1], SortBy(ids[..|ids| - 1], key);
      if id !in key then before else Insert(id, key, before)
  }

  // `a` occurs before `b` in `s`.
  ghost predicate Before<T(!new)>(s: seq<T>, a: T, b: T) {
    exists i, j :: 0 <= i < j < |s| && s[i] == a && s[j] == b
  }

  lemma BeforeAppend<T(!new)>(s: seq<T>, last: T, a: T, b: T)
    ensures Before(s + [last], a, b) <==> Before(s, a, b) || (a in s && b == last)
  {
    var t := s + [last];
    if Before(s, a, b) {
      var i, j :| 0 <= i < j < |s| && s[i] == a && s[j] == b;
      assert t[i] == a && t[j] == b;
    }
    if a in s && b == last {
      var i :| 0 <= i < |s| && s[i] == a;
      assert t[i] == a && t[|s|] == b;
    }
  }

  lemma {:induction false} InsertOrder<T(!new)>(id: T, key: map<T, int>, sorted: seq<T>, a: T, b: T)
    requires id in key && (forall x :: x in sorted ==> x in key) && id !in sorted && a != b
    requires forall x, y :: Before(sorted, x, y) ==> key[x] <= key[y]
    ensures a != id && b != id ==> (Before(Insert(id, key, sorted), a, b) <==> Before(sorted, a, b))
    ensures b == id && a in sorted ==> (Before(Insert(id, key, sorted), a, b) <==> key[a] <= key[id])
    ensures a == id && b in sorted ==> (Before(Insert(id, key, sorted), a, b) <==> key[id] < key[b])
  {
    if sorted != [] {
      var front, last := sorted[..|sorted| - 1], sorted[|sorted| - 1];
      assert sorted == front + [last];
      forall x, y
        ensures Before(sorted, x, y) <==> Before(front, x, y) || (x in front && y == last)
      {
        BeforeAppend(front, last, x, y);
      }
      if key[last] <= key[id] {
        BeforeAppend(sorted, id, a, b);
        assert a in front ==> key[a] <= key[last];
      } else {
        InsertOrder(id, key, front, a, b);
        InsertElements(id, key, front);
        BeforeAppend(Insert(id, key, front), last, a, b);
      }
    }
  }

  lemma BeforeDistinct<T(!new)>(s: seq<T>, a: T, b: T)
    requires NoDup(s) && Before(s, a, b)
    ensures a != b && a in s && b in s && !Before(s, b, a)
  {
  }

  lemma AppendNoDup<T(!new)>(s: seq<T>, x: T)
    requires NoDup(s) && x !in s
    ensures NoDup(s + [x])
  {
    assert forall i :: 0 <= i < |s| ==> s[i] in s;
  }

  // A sequence without repeats stays one under insertion of a new id.
  lemma InsertNoDup<T(!new)>(id: T, key: map<T, int>, sorted: seq<T>)
    requires id in key && (forall x :: x in sorted ==> x in key) && NoDup(sorted) && id !in sorted
    ensures NoDup(Insert(id, key, sorted))
  {
    if sorted != [] && key[sorted[|sorted| - 1]] > key[id] {
      var front, last := sorted[..|sorted| - 1], sorted[|sorted| - 1];
      InsertNoDup(id, key, front);
      InsertElements(id, key, front);
      AppendNoDup(Insert(id, key, front), last);
    } else {
      AppendNoDup(sorted, id);
    }
  }

  lemma {:induction false} SortByNoDup<T(!new)>(ids: seq<T>, key: map<T, int>)
    requires NoDup(ids)
    ensures NoDup(SortBy(ids, key)) && forall x :: x in SortBy(ids, key) ==> x in ids
  {
    if ids != [] {
      var front, id := ids[..|ids| - 1], ids[|ids| - 1];
      assert ids == front + [id];
      SortByNoDup(front, key);
      if id in key {
        InsertElements(id, key, SortBy(front, key));
        InsertNoDup(id, key, SortBy(front, key));
      }
    }
  }

  lemma {:induction false} SortByIs<T(!new)>(ids: seq<T>, key: map<T, int>, a: T, b: T)
    requires NoDup(ids) && a != b
    ensures forall x :: x in SortBy(ids, key) <==> x in ids && x in key
    ensures a in ids && b in ids && a in key && b in key ==>
              (Before(SortBy(ids, key), a, b) <==> key[a] < key[b] || (key[a] == key[b] && Before(ids, a, b)))
  {
    if ids != [] {
      var front, id := ids[..|ids| - 1], ids[|ids| - 1];
      assert ids == front + [id];
      forall x, y | x != y
        ensures forall z :: z in SortBy(front, key) <==> z in front && z in key
        ensures x in front && y in front && x in key && y in key ==>
                  (Before(SortBy(front, key), x, y) <==> key[x] < key[y] || (key[x] == key[y] && Before(front, x, y)))
      {
        SortByIs(front, key, x, y);
      }
      assert id !in front;
      BeforeAppend(front, id, a, b);
      if id in key {
        var p := SortBy(front, key);
        SortByNoDup(front, key);
        forall x, y | Before(p, x, y)
          ensures key[x] <= key[y]
        {
          BeforeDistinct(p, x, y);
        }
        InsertElements(id, key, p);
        InsertOrder(id, key, p, a, b);
      }
    }
  }

  lemma BeforeTotal<T(!new)>(s: seq<T>, a: T, b: T)
    requires NoDup(s) && a in s && b in s && a != b
    ensures Before(s, a, b) <==> !Before(s, b, a)
  {
    var i :| 0 <= i < |s| && s[i] == a;
    var j :| 0 <= j < |s| && s[j] == b;
    if i < j {
      assert Before(s, a, b);
    } else {
      assert Before(s, b, a);
    }
  }

  lemma BeforeJoin<T(!new)>(s: seq<T>, t: seq<T>, a: T, b: T)
    requires forall x :: x in s ==> x !in t
    ensures a in s && b in s ==> (Before(s + t, a, b) <==> Before(s, a, b))
    ensures a in t && b in t ==> (Before(s + t, a, b) <==> Before(t, a, b))
    ensures a in s && b in t ==> Before(s + t, a, b)
    ensures a in t && b in s ==> !Before(s + t, a, b)
  {
    var u := s + t;
    assert forall q :: 0 <= q < |u| ==> if q < |s| then u[q] == s[q] && s[q] in s else u[q] == t[q - |s|] && t[q - |s|] in t;
    if a in s && b in s {
      if Before(u, a, b) {
        var i, j :| 0 <= i < j < |u| && u[i] == a && u[j] == b;
        assert s[i] == a && s[j] == b;
      }
      if Before(s, a, b) {
        var i, j :| 0 <= i < j < |s| && s[i] == a && s[j] == b;
        assert u[i] == a && u[j] == b;
      }
    } else if a in t && b in t {
      if Before(u, a, b) {
        var i, j :| 0 <= i < j < |u| && u[i] == a && u[j] == b;
        assert t[i - |s|] == a && t[j - |s|] == b;
      }
      if Before(t, a, b) {
        var i, j :| 0 <= i < j < |t| && t[i] == a && t[j] == b;
        assert u[i + |s|] == a && u[j + |s|] == b;
      }
    } else if a in s && b in t {
      var i :| 0 <= i < |s| && s[i] == a;
      var j :| 0 <= j < |t| && t[j] == b;
      assert u[i] == a && u[j + |s|] == b;
    }
  }

  lemma JoinNoDup<T(!new)>(s: seq<T>, t: seq<T>)
    requires NoDup(s) && NoDup(t) && forall x :: x in s ==> x !in t
    ensures NoDup(s + t)
  {
    forall i, j | 0 <= i < j < |s + t|
      ensures (s + t)[i] != (s + t)[j]
    {
      if i < |s| <= j {
        assert s[i] in s && t[j - |s|] in t;
      }
    }
  }

  lemma SameLast<T(!new)>(f: seq<T>, x: T, g: seq<T>, y: T)
    requires NoDup(f + [x]) && NoDup(g + [y]) && y in f + [x] && x in g + [y]
    requires x != y ==> (Before(f + [x], y, x) <==> Before(g + [y], y, x))
    ensures x == y
  {
    if x != y {
      assert y in f && x in g;
      BeforeAppend(f, x, y, x);
      BeforeAppend(g, y, x, y);
      BeforeDistinct(g + [y], x, y);
    }
  }

  // Dropping the last element drops it from the elements and leaves the order alone.
  lemma FrontIs<T(!new)>(s: seq<T>, a: T, b: T)
    requires NoDup(s) && s != []
    ensures var f, x := s[..|s| - 1], s[|s| - 1];
            && s == f + [x] && NoDup(f) && x in s
            && (forall z :: z in f <==> z in s && z != x)
            && (a in f && b in f && a != b ==> (Before(f, a, b) <==> Before(s, a, b)))
  {
    var f, x := s[..|s| - 1], s[|s| - 1];
    assert s == f + [x];
    if a != b {
      BeforeAppend(f, x, a, b);
    }
  }

  /** A set of ids in a given order is one sequence only. */
  lemma {:induction false} OrderDetermines<T(!new)>(s: seq<T>, t: seq<T>)
    requires NoDup(s) && NoDup(t) && (forall x :: x in s <==> x in t)
    requires forall a, b :: a in s && b in s && a != b ==> (Before(s, a, b) <==> Before(t, a, b))
    ensures s == t
  {
    if s == [] {
      Inhabited(t);
    } else {
      var f, x := s[..|s| - 1], s[|s| - 1];
      FrontIs(s, x, x);
      Inhabited(t);
      var g, y := t[..|t| - 1], t[|t| - 1];
      FrontIs(t, y, y);
      SameLast(f, x, g, y);
      forall a, b | a in f && b in f && a != b
        ensures Before(f, a, b) <==> Before(g, a, b)
      {
        FrontIs(s, a, b);
        FrontIs(t, a, b);
      }
      OrderDetermines(f, g);
    }
  }
}

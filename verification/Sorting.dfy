/** Stable sorting by an integer key, as Array.prototype.sort does it. */
module Sorting {
  datatype Keyed<T> = Keyed(key: int, item: T)

  predicate Sorted<T>(s: seq<Keyed<T>>) { forall i, j :: 0 <= i < j < |s| ==> s[i].key <= s[j].key }

  /** p put behind every element that does not exceed it. */
  function Insert<T>(s: seq<Keyed<T>>, p: Keyed<T>): (r: seq<Keyed<T>>)
    ensures |r| == |s| + 1
  {
    if s == [] || s[|s| - 1].key <= p.key then s + [p] else Insert(s[..|s| - 1], p) + [s[|s| - 1]]
  }

  /** Ascending by key, elements of one key in their old order. */
  function StableSort<T>(ps: seq<Keyed<T>>): (r: seq<Keyed<T>>)
    ensures |r| == |ps|
  {
    if ps == [] then [] else Insert(StableSort(ps[..|ps| - 1]), ps[|ps| - 1])
  }

  /** Where Insert puts p: everything before is at most p, everything after is above it. */
  lemma {:induction false} InsertPosition<T>(s: seq<Keyed<T>>, p: Keyed<T>) returns (k: nat)
    requires Sorted(s)
    ensures k <= |s| && Insert(s, p) == s[..k] + [p] + s[k..]
    ensures forall i :: 0 <= i < k ==> s[i].key <= p.key
    ensures forall i :: k <= i < |s| ==> s[i].key > p.key
  {
    if s == [] || s[|s| - 1].key <= p.key {
      k := |s|;
      assert s[..k] == s && s[k..] == [];
    } else {
      var init, last := s[..|s| - 1], s[|s| - 1];
      k := InsertPosition(init, p);
      assert init[..k] == s[..k] && init[k..] + [last] == s[k..];
    }
  }

  lemma {:induction false} SortSorts<T>(ps: seq<Keyed<T>>)
    ensures Sorted(StableSort(ps))
  {
    if ps != [] {
      SortSorts(ps[..|ps| - 1]);
      InsertSorts(StableSort(ps[..|ps| - 1]), ps[|ps| - 1]);
    }
  }

  lemma InsertSorts<T>(s: seq<Keyed<T>>, p: Keyed<T>)
    requires Sorted(s)
    ensures Sorted(Insert(s, p))
  {
    var k := InsertPosition(s, p);
    var r := s[..k] + [p] + s[k..];
    assert forall i :: 0 <= i < k ==> r[i] == s[i];
    assert forall i :: k < i < |r| ==> r[i] == s[i - 1];
  }

  /** The elements of one key, in order. */
  function WithKey<T>(s: seq<Keyed<T>>, h: int): seq<Keyed<T>> {
    if s == [] then []
    else WithKey(s[..|s| - 1], h) + (if s[|s| - 1].key == h then [s[|s| - 1]] else [])
  }

  lemma {:induction false} WithKeyOfInsert<T>(s: seq<Keyed<T>>, p: Keyed<T>, h: int)
    ensures WithKey(Insert(s, p), h) == WithKey(s, h) + (if p.key == h then [p] else [])
  {
    if s == [] || s[|s| - 1].key <= p.key {
      assert (s + [p])[..|s|] == s;
    } else {
      var init, last := s[..|s| - 1], s[|s| - 1];
      WithKeyOfInsert(init, p, h);
      var r := Insert(s, p);
      assert r[..|r| - 1] == Insert(init, p) && r[|r| - 1] == last;
    }
  }

  lemma {:induction false} SortIsStable<T>(ps: seq<Keyed<T>>, h: int)
    ensures WithKey(StableSort(ps), h) == WithKey(ps, h)
  {
    if ps != [] {
      SortIsStable(ps[..|ps| - 1], h);
      WithKeyOfInsert(StableSort(ps[..|ps| - 1]), ps[|ps| - 1], h);
    }
  }

  lemma {:induction false} WithKeyOccurs<T>(s: seq<Keyed<T>>, h: int)
    ensures WithKey(s, h) != [] <==> exists i :: 0 <= i < |s| && s[i].key == h
  {
    if s != [] {
      WithKeyOccurs(s[..|s| - 1], h);
      if i :| 0 <= i < |s| && s[i].key == h {
        if i < |s| - 1 { assert s[..|s| - 1][i].key == h; }
      }
    }
  }

  ghost predicate SameClasses<T>(s: seq<Keyed<T>>, t: seq<Keyed<T>>) { forall h :: WithKey(s, h) == WithKey(t, h) }

  lemma TopReaches<T>(s: seq<Keyed<T>>, t: seq<Keyed<T>>)
    requires s != [] && Sorted(t) && SameClasses(s, t)
    ensures t != [] && s[|s| - 1].key <= t[|t| - 1].key
  {
    var h := s[|s| - 1].key;
    WithKeyOccurs(s, h);
    WithKeyOccurs(t, h);
    assert WithKey(s, h) == WithKey(t, h);
    var i :| 0 <= i < |t| && t[i].key == h;
  }

  lemma SameTop<T>(s: seq<Keyed<T>>, t: seq<Keyed<T>>)
    requires s != [] && t != [] && SameClasses(s, t) && s[|s| - 1].key == t[|t| - 1].key
    ensures s[|s| - 1] == t[|t| - 1]
    ensures SameClasses(s[..|s| - 1], t[..|t| - 1])
  {
    var p, q := s[|s| - 1], t[|t| - 1];
    var s', t' := s[..|s| - 1], t[..|t| - 1];
    assert WithKey(s, p.key) == WithKey(t, p.key);
    LastOf(WithKey(s', p.key), p, WithKey(t', p.key), q);
    forall h ensures WithKey(s', h) == WithKey(t', h) {
      if h != p.key {
        assert WithKey(s, h) == WithKey(t, h);
        assert WithKey(s', h) + [] == WithKey(s', h) && WithKey(t', h) + [] == WithKey(t', h);
      }
    }
  }

  /** Two sorted sequences that agree on every hash class are equal. */
  lemma {:induction false} SortedClassesDetermine<T>(s: seq<Keyed<T>>, t: seq<Keyed<T>>)
    requires Sorted(s) && Sorted(t) && SameClasses(s, t)
    ensures s == t
    decreases |s|
  {
    if s == [] {
      if t != [] { TopReaches(t, s); }
    } else {
      TopReaches(s, t);
      TopReaches(t, s);
      SameTop(s, t);
      SortedClassesDetermine(s[..|s| - 1], t[..|t| - 1]);
      assert s == s[..|s| - 1] + [s[|s| - 1]] && t == t[..|t| - 1] + [t[|t| - 1]];
    }
  }

  lemma LastOf<T>(a: seq<Keyed<T>>, p: Keyed<T>, b: seq<Keyed<T>>, q: Keyed<T>)
    requires a + [p] == b + [q]
    ensures a == b && p == q
  {
    assert |a| == |b| && (a + [p])[|a|] == p && (b + [q])[|b|] == q;
    assert a == (a + [p])[..|a|] && b == (b + [q])[..|b|];
  }

  /** Any sort that is sorted and stable gives this result, whatever algorithm it runs. */
  lemma StableSortIsUnique<T>(ps: seq<Keyed<T>>, r: seq<Keyed<T>>)
    requires Sorted(r) && SameClasses(r, ps)
    ensures r == StableSort(ps)
  {
    SortSorts(ps);
    forall h ensures WithKey(StableSort(ps), h) == WithKey(r, h) { SortIsStable(ps, h); }
    SortedClassesDetermine(r, StableSort(ps));
  }
}

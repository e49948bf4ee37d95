/** Lists and sets: mapping, the stable `sort_by_key`, permutations, sizes. */
module Collections {

  function PlaceBy<T>(key: T -> nat, x: T, s: seq<T>): seq<T> {
    if s == [] then [x]
    else if key(x) <= key(s[0]) then [x] + s
    else [s[0]] + PlaceBy(key, x, s[1..])
  }

  function SortBy<T>(key: T -> nat, s: seq<T>): seq<T> {
    if s == [] then [] else PlaceBy(key, s[0], SortBy(key, s[1..]))
  }

  predicate AscendingBy<T>(key: T -> nat, s: seq<T>) {
    forall i, j :: 0 <= i < j < |s| ==> key(s[i]) <= key(s[j])
  }

  lemma {:induction false} PlaceAdds<T>(key: T -> nat, x: T, s: seq<T>)
    ensures multiset(PlaceBy(key, x, s)) == multiset(s) + multiset{x}
  {
    if s != [] {
      assert s == [s[0]] + s[1..];
      PlaceAdds(key, x, s[1..]);
    }
  }

  lemma {:induction false} PlaceOrders<T>(key: T -> nat, x: T, s: seq<T>)
    requires AscendingBy(key, s)
    ensures AscendingBy(key, PlaceBy(key, x, s))
  {
    if s != [] && key(x) > key(s[0]) {
      PlaceOrders(key, x, s[1..]);
      var t := PlaceBy(key, x, s[1..]);
      forall j | 0 <= j < |t| ensures key(s[0]) <= key(t[j]) {
        PlaceAdds(key, x, s[1..]);
        assert t[j] in multiset(t);
        assert t[j] in multiset(s[1..]) || t[j] == x;
      }
    }
  }

  lemma {:induction false} SortByFacts<T>(key: T -> nat, s: seq<T>)
    ensures AscendingBy(key, SortBy(key, s)) && multiset(SortBy(key, s)) == multiset(s)
    ensures |SortBy(key, s)| == |s|
  {
    if s != [] {
      SortByFacts(key, s[1..]);
      PlaceOrders(key, s[0], SortBy(key, s[1..]));
      PlaceAdds(key, s[0], SortBy(key, s[1..]));
      assert s == [s[0]] + s[1..];
    }
    assert |multiset(SortBy(key, s))| == |SortBy(key, s)| && |multiset(s)| == |s|;
  }

  lemma Tail<T>(s: seq<T>)
    requires s != []
    ensures multiset(s[1..]) == multiset(s) - multiset{s[0]} && s == [s[0]] + s[1..]
  {
    assert s == [s[0]] + s[1..];
  }

  /** Equal keys mean equal elements. */
  ghost predicate Determines<T>(key: T -> nat, s: seq<T>) {
    forall i, j :: 0 <= i < |s| && 0 <= j < |s| && key(s[i]) == key(s[j]) ==> s[i] == s[j]
  }

  lemma SameFirst<T>(key: T -> nat, s: seq<T>, t: seq<T>)
    requires s != [] && t != [] && AscendingBy(key, s) && AscendingBy(key, t) && multiset(s) == multiset(t)
    requires Determines(key, t)
    ensures s[0] == t[0]
  {
    assert s[0] in multiset(t) && t[0] in multiset(s);
    var i :| 0 <= i < |t| && t[i] == s[0];
    var j :| 0 <= j < |s| && s[j] == t[0];
  }

  /** An ascending list without key clashes is determined by what it holds. */
  lemma {:induction false} AscendingUnique<T>(key: T -> nat, s: seq<T>, t: seq<T>)
    requires AscendingBy(key, s) && AscendingBy(key, t) && multiset(s) == multiset(t)
    requires Determines(key, t)
    ensures s == t
  {
    assert |s| == |multiset(s)| && |t| == |multiset(t)|;
    if t != [] {
      SameFirst(key, s, t);
      Tail(s);
      Tail(t);
      AscendingUnique(key, s[1..], t[1..]);
    }
  }

  function Mapped<T, U>(f: T -> U, s: seq<T>): (t: seq<U>)
    ensures |t| == |s|
    ensures forall i :: 0 <= i < |s| ==> t[i] == f(s[i])
  {
    seq(|s|, i requires 0 <= i < |s| => f(s[i]))
  }

  lemma TakeOut<T>(s: seq<T>, i: nat)
    requires i < |s|
    ensures multiset(s) == multiset(s[..i] + s[i + 1..]) + multiset{s[i]}
  {
    assert s == s[..i] + ([s[i]] + s[i + 1..]);
  }

  lemma MappedTakeOut<T, U>(f: T -> U, s: seq<T>, i: nat)
    requires i < |s|
    ensures multiset(Mapped(f, s)) == multiset(Mapped(f, s[..i] + s[i + 1..])) + multiset{f(s[i])}
  {
    var m := Mapped(f, s);
    TakeOut(m, i);
    assert m[..i] + m[i + 1..] == Mapped(f, s[..i] + s[i + 1..]);
  }

  /** The place of the first element of one list in a permutation of it. */
  lemma Partner<T>(s: seq<T>, t: seq<T>) returns (i: nat)
    requires s != [] && multiset(s) == multiset(t)
    ensures i < |t| && t[i] == s[0] && multiset(s[..0] + s[1..]) == multiset(t[..i] + t[i + 1..])
  {
    assert s[0] in multiset(t);
    i :| i < |t| && t[i] == s[0];
    TakeOut(s, 0);
    TakeOut(t, i);
    Cancel(multiset(s[..0] + s[1..]), multiset(t[..i] + t[i + 1..]), s[0]);
  }

  lemma Cancel<T>(a: multiset<T>, b: multiset<T>, x: T)
    requires a + multiset{x} == b + multiset{x}
    ensures a == b
  {
    assert a == a + multiset{x} - multiset{x};
  }

  lemma {:induction false} MappedIgnoresOrder<T, U>(f: T -> U, s: seq<T>, t: seq<T>)
    requires multiset(s) == multiset(t)
    ensures multiset(Mapped(f, s)) == multiset(Mapped(f, t))
    decreases |s|
  {
    hide Mapped;
    assert |multiset(s)| == |s| && |multiset(t)| == |t|;
    if s != [] {
      var i := Partner(s, t);
      MappedTakeOut(f, s, 0);
      MappedTakeOut(f, t, i);
      MappedIgnoresOrder(f, s[..0] + s[1..], t[..i] + t[i + 1..]);
    }
  }

  lemma SameSort<T>(key: T -> nat, s: seq<T>, t: seq<T>)
    requires multiset(s) == multiset(t) && Determines(key, s)
    ensures SortBy(key, s) == SortBy(key, t)
  {
    SortByFacts(key, s);
    SortByFacts(key, t);
    var u := SortBy(key, s);
    forall i, j | 0 <= i < |u| && 0 <= j < |u| && key(u[i]) == key(u[j]) ensures u[i] == u[j] {
      MemberOf(u, s, u[i]);
      MemberOf(u, s, u[j]);
    }
    AscendingUnique(key, SortBy(key, t), u);
  }

  lemma MemberOf<T>(s: seq<T>, t: seq<T>, x: T)
    requires multiset(s) == multiset(t) && x in s
    ensures x in t
  {
    assert x in multiset(s);
  }

  lemma SubsetSize<T>(a: set<T>, b: set<T>)
    requires a <= b
    ensures |a| <= |b|
  {
    assert b == a + (b - a);
  }
}

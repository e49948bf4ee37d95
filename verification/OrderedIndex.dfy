/** The priority indices of the mempool. A `BTreeSet<(priority, id)>` is the strictly
    ascending sequence of its elements, so iterating it is walking the sequence. */
module OrderedIndex {
  import opened Ledger

  type Key = (nat, Hash)

  predicate Less(a: Key, b: Key) {
    a.0 < b.0 || (a.0 == b.0 && a.1 < b.1)
  }

  predicate Ascending(s: seq<Key>) {
    forall i, j :: 0 <= i < j < |s| ==> Less(s[i], s[j])
  }

  /** `BTreeSet::insert`. */
  function Insert(s: seq<Key>, k: Key): seq<Key> {
    if s == [] then [k]
    else if s[0] == k then s
    else if Less(k, s[0]) then [k] + s
    else [s[0]] + Insert(s[1..], k)
  }

  /** `BTreeSet::remove`. */
  function Remove(s: seq<Key>, k: Key): seq<Key> {
    if s == [] then []
    else if s[0] == k then s[1..]
    else [s[0]] + Remove(s[1..], k)
  }

  /** `retain(|(_, id)| id not in ids)`. */
  function Drop(s: seq<Key>, ids: set<Hash>): seq<Key> {
    if s == [] then []
    else (if s[0].1 in ids then [] else [s[0]]) + Drop(s[1..], ids)
  }

  /** The ids of an index, as a set. */
  function Ids(s: seq<Key>): set<Hash> {
    if s == [] then {} else Ids(s[..|s| - 1]) + {s[|s| - 1].1}
  }

  lemma {:induction false} IdsMembers(s: seq<Key>)
    ensures forall i :: 0 <= i < |s| ==> s[i].1 in Ids(s)
    ensures forall id :: id in Ids(s) ==> exists i :: 0 <= i < |s| && s[i].1 == id
  {
    if s != [] {
      IdsMembers(s[..|s| - 1]);
      forall id | id in Ids(s) ensures exists i :: 0 <= i < |s| && s[i].1 == id {
        if id != s[|s| - 1].1 {
          var i :| 0 <= i < |s| - 1 && s[..|s| - 1][i].1 == id;
          assert s[i].1 == id;
        }
      }
    }
  }

  lemma {:induction false} InsertKeepsOrder(s: seq<Key>, k: Key)
    requires Ascending(s)
    ensures Ascending(Insert(s, k))
    ensures forall x :: x in Insert(s, k) <==> x in s || x == k
  {
    if s == [] || s[0] == k || Less(k, s[0]) {
    } else {
      InsertKeepsOrder(s[1..], k);
      assert s == [s[0]] + s[1..];
      var t := Insert(s[1..], k);
      forall i | 0 <= i < |t| ensures Less(s[0], t[i]) {
        assert t[i] in t;
      }
    }
  }

  lemma {:induction false} RemoveKeepsOrder(s: seq<Key>, k: Key)
    requires Ascending(s)
    ensures Ascending(Remove(s, k))
    ensures forall x :: x in Remove(s, k) <==> x in s && x != k
  {
    if s != [] {
      assert s == [s[0]] + s[1..];
      if s[0] == k {
        assert k !in s[1..];
      } else {
        RemoveKeepsOrder(s[1..], k);
        var t := Remove(s[1..], k);
        forall i | 0 <= i < |t| ensures Less(s[0], t[i]) {
          assert t[i] in t;
        }
      }
    }
  }

  lemma {:induction false} DropKeepsOrder(s: seq<Key>, ids: set<Hash>)
    requires Ascending(s)
    ensures Ascending(Drop(s, ids))
    ensures forall x :: x in Drop(s, ids) <==> x in s && x.1 !in ids
  {
    if s != [] {
      assert s == [s[0]] + s[1..];
      DropKeepsOrder(s[1..], ids);
      var t := Drop(s[1..], ids);
      forall i | 0 <= i < |t| ensures Less(s[0], t[i]) {
        assert t[i] in t;
      }
    }
  }

  /** An index is determined by its elements. */
  lemma {:induction false} SameElements(s: seq<Key>, t: seq<Key>)
    requires Ascending(s) && Ascending(t)
    requires forall x :: x in s <==> x in t
    ensures s == t
  {
    if s == [] {
      assert forall i :: 0 <= i < |t| ==> t[i] in t;
    } else {
      assert s[0] in t && t != [];
      assert t[0] in s;
      assert s[0] == t[0];
      assert s == [s[0]] + s[1..] && t == [t[0]] + t[1..];
      forall x ensures x in s[1..] <==> x in t[1..] {
        assert s[0] !in s[1..] && t[0] !in t[1..];
        assert x in s <==> x == s[0] || x in s[1..];
        assert x in t <==> x == t[0] || x in t[1..];
      }
      SameElements(s[1..], t[1..]);
    }
  }

  /** No id occurs under two priorities. */
  predicate OnePriority(s: seq<Key>) {
    forall k, l :: k in s && l in s && k.1 == l.1 ==> k == l
  }

  /** Removing a key that is the only one of its id. */
  lemma RemoveIsDrop(s: seq<Key>, k: Key)
    requires Ascending(s) && OnePriority(s) && k in s
    ensures Remove(s, k) == Drop(s, {k.1})
  {
    DropKeepsOrder(s, {k.1});
    RemoveKeepsOrder(s, k);
    SameElements(Remove(s, k), Drop(s, {k.1}));
  }

  /** `pop_last`: removing the greatest key leaves the rest in order. */
  lemma {:induction false} RemoveLast(s: seq<Key>)
    requires s != [] && Ascending(s)
    ensures Remove(s, s[|s| - 1]) == s[..|s| - 1]
  {
    var n := |s| - 1;
    if n > 0 {
      assert Less(s[0], s[n]);
      RemoveLast(s[1..]);
      assert s[1..][..n - 1] == s[1..n];
    }
  }

  lemma {:induction false} IdsCount(s: seq<Key>)
    requires Ascending(s) && OnePriority(s)
    ensures |Ids(s)| == |s|
  {
    if s != [] {
      var n := |s| - 1;
      assert s == s[..n] + [s[n]];
      IdsCount(s[..n]);
      assert s[n] !in s[..n];
      IdsMembers(s[..n]);
    }
  }
}

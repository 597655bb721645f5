/** Two-tier eviction of inactive cache entries (trimCache in components/hoomail/use-hoomail.ts). */
module CacheTrim {
  const MAX_INACTIVE_RESOURCES := 32
  const MAX_INACTIVE_INSPECTIONS := 8

  type Key = string

  predicate EndsWith(key: Key, suffix: string) {
    |suffix| <= |key| && key[|key| - |suffix|..] == suffix
  }

  predicate IsInspection(key: Key) {
    EndsWith(key, "/inspect")
  }

  function Elements(keys: seq<Key>): set<Key> {
    set x | x in keys
  }

  // Keys in the insertion order of the Map, each with its time of last use.
  datatype Recency = Recency(order: seq<Key>, lastUsed: map<Key, nat>) {
    predicate Valid() {
      && (forall k :: k in order ==> k in lastUsed)
      && (forall i, j :: 0 <= i < j < |order| ==> order[i] != order[j])
    }

    function Position(k: Key): (i: nat)
      requires k in order
      ensures i < |order| && order[i] == k
    {
      PositionFrom(k, 0)
    }

    function PositionFrom(k: Key, i: nat): (r: nat)
      requires i <= |order| && k in order[i..]
      ensures i <= r < |order| && order[r] == k
      decreases |order| - i
    {
      if order[i] == k then i else PositionFrom(k, i + 1)
    }

    // More recent: used later, or inserted later among entries last used at the same time.
    predicate Newer(a: Key, b: Key)
      requires Valid() && a in order && b in order
    {
      lastUsed[a] > lastUsed[b] || (lastUsed[a] == lastUsed[b] && Position(a) > Position(b))
    }

    ghost function NewerIn(group: set<Key>, k: Key): set<Key>
      requires Valid() && k in order && forall x :: x in group ==> x in order
    {
      set x | x in group && Newer(x, k)
    }

    // The number of keys of a group that are more recent than k.
    ghost function Rank(group: set<Key>, k: Key): nat
      requires Valid() && k in order && forall x :: x in group ==> x in order
    {
      |NewerIn(group, k)|
    }

    ghost predicate Sorted(keys: seq<Key>)
      requires Valid()
    {
      && (forall k :: k in keys ==> k in order)
      && (forall i, j :: 0 <= i < j < |keys| ==> Newer(keys[j], keys[i]))
    }

    // Insertion that keeps earlier equal elements first: one step of a stable sort.
    function Inserted(keys: seq<Key>, k: Key): seq<Key>
      requires Valid() && k in order && forall x :: x in keys ==> x in order
    {
      if keys == [] || lastUsed[keys[|keys| - 1]] <= lastUsed[k] then keys + [k]
      else Inserted(keys[..|keys| - 1], k) + [keys[|keys| - 1]]
    }

    // The sort of the kept keys of order[..i] by last use.
    function SortedPrefix(keep: set<Key>, i: nat): (r: seq<Key>)
      requires Valid() && i <= |order|
      ensures forall x :: x in r ==> x in order
    {
      if i == 0 then []
      else
        var before := SortedPrefix(keep, i - 1);
        InsertedElements(before, order[i - 1]);
        if order[i - 1] in keep then Inserted(before, order[i - 1]) else before
    }

    lemma {:induction false} InsertedElements(keys: seq<Key>, k: Key)
      requires Valid() && k in order && forall x :: x in keys ==> x in order
      ensures forall x :: x in Inserted(keys, k) <==> x in keys || x == k
    {
      if keys != [] {
        InsertedElements(keys[..|keys| - 1], k);
        assert keys == keys[..|keys| - 1] + [keys[|keys| - 1]];
      }
    }

    lemma {:induction false} PositionIs(i: nat)
      requires Valid() && i < |order|
      ensures Position(order[i]) == i
    {
    }

    lemma {:induction false} InsertedSorted(keys: seq<Key>, k: Key)
      requires Valid() && k in order && Sorted(keys) && forall x :: x in keys ==> Position(x) < Position(k)
      ensures Sorted(Inserted(keys, k))
    {
      InsertedElements(keys, k);
      if keys != [] {
        var front, last := keys[..|keys| - 1], keys[|keys| - 1];
        if lastUsed[last] > lastUsed[k] {
          InsertedSorted(front, k);
          InsertedElements(front, k);
          var r := Inserted(front, k);
          forall x | x in r ensures Newer(last, x) {
            if x != k {
              var i :| 0 <= i < |front| && front[i] == x;
              assert Newer(keys[|keys| - 1], keys[i]);
            }
          }
        } else {
          forall i | 0 <= i < |keys| ensures Newer(k, keys[i]) {
            assert i < |keys| - 1 ==> Newer(keys[|keys| - 1], keys[i]);
          }
        }
      }
    }

    lemma {:induction false} SortedPrefixSorted(keep: set<Key>, i: nat)
      requires Valid() && i <= |order|
      ensures Sorted(SortedPrefix(keep, i))
      ensures forall x :: x in SortedPrefix(keep, i) <==> x in keep && x in order[..i]
    {
      if i > 0 {
        SortedPrefixSorted(keep, i - 1);
        var before, k := SortedPrefix(keep, i - 1), order[i - 1];
        PositionIs(i - 1);
        forall x | x in before ensures Position(x) < Position(k) {
          var j :| 0 <= j < i - 1 && order[..i - 1][j] == x;
          PositionIs(j);
        }
        InsertedElements(before, k);
        InsertedSorted(before, k);
        assert order[..i] == order[..i - 1] + [k];
      }
    }

    // Among sorted keys, the ones more recent than keys[i] are the ones behind it.
    lemma {:induction false} RankInSorted(keys: seq<Key>, i: nat)
      requires Valid() && Sorted(keys) && i < |keys|
      ensures Rank(Elements(keys), keys[i]) == |keys| - 1 - i
    {
      var newer := NewerIn(Elements(keys), keys[i]);
      forall j | 0 <= j < |keys| ensures keys[j] in newer <==> i < j {
        assert j < i ==> Newer(keys[i], keys[j]);
        assert i < j ==> Newer(keys[j], keys[i]);
      }
      forall x ensures x in newer <==> x in Elements(keys[i + 1..]) {
        if x in newer {
          var j :| 0 <= j < |keys| && keys[j] == x;
          assert keys[i + 1..][j - i - 1] == x;
        }
      }
      assert newer == Elements(keys[i + 1..]);
      CountBehind(keys, i + 1);
    }

    lemma {:induction false} NoneBehind(keys: seq<Key>)
      ensures Elements(keys[|keys|..]) == {}
    {
    }

    lemma {:induction false} ElementsBehind(keys: seq<Key>, i: nat)
      requires i < |keys| && forall j :: i < j < |keys| ==> keys[j] != keys[i]
      ensures Elements(keys[i..]) == Elements(keys[i + 1..]) + {keys[i]} && keys[i] !in Elements(keys[i + 1..])
    {
      assert keys[i..] == [keys[i]] + keys[i + 1..];
    }

    lemma {:induction false} CountBehind(keys: seq<Key>, i: nat)
      requires Valid() && Sorted(keys) && i <= |keys|
      ensures |Elements(keys[i..])| == |keys| - i
      decreases |keys| - i
    {
      if i < |keys| {
        CountBehind(keys, i + 1);
        forall j | i < j < |keys| ensures keys[j] != keys[i] {
          assert Newer(keys[j], keys[i]);
        }
        hide *;
        ElementsBehind(keys, i);
      } else {
        NoneBehind(keys);
      }
    }
  }

  function Filter(keys: seq<Key>, n: nat): seq<Key>
    requires n <= |keys|
  {
    if n == 0 then []
    else Filter(keys, n - 1) + if IsInspection(keys[n - 1]) then [keys[n - 1]] else []
  }

  lemma {:induction false} FilterSorted(r: Recency, keys: seq<Key>, n: nat)
    requires r.Valid() && r.Sorted(keys) && n <= |keys|
    ensures r.Sorted(Filter(keys, n))
    ensures forall x :: x in Filter(keys, n) <==> x in keys[..n] && IsInspection(x)
  {
    if n > 0 {
      FilterSorted(r, keys, n - 1);
      assert keys[..n] == keys[..n - 1] + [keys[n - 1]];
      var before := Filter(keys, n - 1);
      forall j | 0 <= j < |before| ensures r.Newer(keys[n - 1], before[j]) {
        assert before[j] in before;
        var i :| 0 <= i < n - 1 && keys[..n - 1][i] == before[j];
        assert r.Newer(keys[n - 1], keys[i]);
      }
    }
  }

  // What survives: everything active, and of the inactive keys those within both tiers.
  ghost predicate Survives(r: Recency, inactive: set<Key>, k: Key)
    requires r.Valid() && k in r.order && forall x :: x in inactive ==> x in r.order
  {
    k in inactive ==>
      && r.Rank(inactive, k) < MAX_INACTIVE_RESOURCES
      && (IsInspection(k) ==> r.Rank((set x | x in inactive && IsInspection(x)), k) < MAX_INACTIVE_INSPECTIONS)
  }

  // trimCache: the keys it deletes, given the inactive ones.
  method Trim(r: Recency, inactive: set<Key>) returns (evicted: set<Key>)
    requires r.Valid() && forall x :: x in inactive ==> x in r.order
    ensures forall k :: k in r.order ==> (k !in evicted <==> Survives(r, inactive, k))
    ensures evicted <= inactive
  {
    var keys := r.SortedPrefix(inactive, |r.order|);
    r.SortedPrefixSorted(inactive, |r.order|);
    assert r.order[..|r.order|] == r.order;
    assert Elements(keys) == inactive;
    evicted := {};
    var first := EvictOldest(r, keys, MAX_INACTIVE_RESOURCES);
    var inspections := Filter(keys, |keys|);
    FilterSorted(r, keys, |keys|);
    assert keys[..|keys|] == keys;
    var second := EvictOldest(r, inspections, MAX_INACTIVE_INSPECTIONS);
    assert Elements(inspections) == set x | x in inactive && IsInspection(x);
    evicted := first + second;
  }

  // One deletion loop: all but the `keep` most recent keys.
  method EvictOldest(r: Recency, keys: seq<Key>, keep: nat) returns (evicted: set<Key>)
    requires r.Valid() && r.Sorted(keys)
    ensures evicted <= Elements(keys)
    ensures forall k :: k in keys ==> (k in evicted <==> r.Rank(Elements(keys), k) >= keep)
  {
    evicted := {};
    var index := 0;
    while index < |keys| - keep
      invariant index <= |keys|
      invariant index > |keys| - keep ==> index == 0
      invariant evicted == set i | 0 <= i < index :: keys[i]
    {
      evicted := evicted + {keys[index]};
      index := index + 1;
    }
    forall k | k in keys ensures k in evicted <==> r.Rank(Elements(keys), k) >= keep {
      var i :| 0 <= i < |keys| && keys[i] == k;
      r.RankInSorted(keys, i);
      if k in evicted {
        var j :| 0 <= j < index && keys[j] == k;
        r.RankInSorted(keys, j);
      }
    }
  }
}

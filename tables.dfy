/** A database table kept as a sequence of rows in primary-key order: what it means
    for a column to increase along the table, removal of the row with a given key,
    and reversal (for `ORDER BY ... DESC`). */
module Tables {
  import opened Basics

  /** The key strictly increases along the table (primary-key order). */
  ghost predicate KeysIncreasing<T>(xs: seq<T>, key: T -> nat) {
    forall i, j :: 0 <= i < j < |xs| ==> key(xs[i]) < key(xs[j])
  }

  /** The column never decreases along the table (e.g. creation time in insertion order). */
  ghost predicate KeysNondecreasing<T>(xs: seq<T>, key: T -> nat) {
    forall i, j :: 0 <= i < j < |xs| ==> key(xs[i]) <= key(xs[j])
  }

  /** The column never increases along the table. */
  ghost predicate KeysNonincreasing<T>(xs: seq<T>, key: T -> nat) {
    forall i, j :: 0 <= i < j < |xs| ==> key(xs[i]) >= key(xs[j])
  }

  /** `filter_by(id=k, <owner column>=o).first()`: the first row with key `k` whose owner
      column holds `o`. */
  function FirstWith<T>(xs: seq<T>, key: T -> nat, k: int, owner: T -> nat, o: nat): (r: Option<T>)
    ensures r.Some? ==> r.value in xs && key(r.value) == k && owner(r.value) == o
    ensures r.None? ==> forall i :: 0 <= i < |xs| ==> !(key(xs[i]) == k && owner(xs[i]) == o)
  {
    if xs == [] then None
    else if key(xs[0]) == k && owner(xs[0]) == o then Some(xs[0])
    else FirstWith(xs[1..], key, k, owner, o)
  }

  /** Keys are unique: two rows of a table in key order with the same key are the same row. */
  lemma SameKeySameRow<T>(xs: seq<T>, key: T -> nat, a: T, b: T)
    requires KeysIncreasing(xs, key) && a in xs && b in xs && key(a) == key(b)
    ensures a == b
  {
    var i :| 0 <= i < |xs| && xs[i] == a;
    var j :| 0 <= j < |xs| && xs[j] == b;
    assert key(xs[i]) == key(xs[j]);
  }

  /** A row is found by its own key under its own owner, and under no other owner. */
  lemma FoundByKey<T>(xs: seq<T>, key: T -> nat, owner: T -> nat, x: T, o: nat)
    requires KeysIncreasing(xs, key) && x in xs
    ensures FirstWith(xs, key, key(x), owner, o) == if owner(x) == o then Some(x) else None
  {
    var i :| 0 <= i < |xs| && xs[i] == x;
    assert key(xs[i]) == key(x) && owner(xs[i]) == owner(x);
    var r := FirstWith(xs, key, key(x), owner, o);
    if r.Some? {
      SameKeySameRow(xs, key, x, r.value);
    }
  }

  /** Putting at most one row that is no later than every other row in front keeps a
      column non-decreasing. */
  lemma PrependNondecreasing<T>(head: seq<T>, rest: seq<T>, key: T -> nat)
    requires |head| <= 1 && KeysNondecreasing(rest, key)
    requires forall x, y :: x in head && y in rest ==> key(x) <= key(y)
    ensures KeysNondecreasing(head + rest, key)
  {
    var s := head + rest;
    forall i, j | 0 <= i < j < |s| ensures key(s[i]) <= key(s[j]) {
      assert s[j] == rest[j - |head|];
      if i < |head| {
        assert s[i] in head;
      } else {
        assert s[i] == rest[i - |head|];
      }
    }
  }

  /** `DELETE ... WHERE key = k`: the rows that remain, in their order. */
  function RemoveKey<T(==)>(xs: seq<T>, key: T -> nat, k: nat): (r: seq<T>)
    ensures forall i :: 0 <= i < |r| ==> key(r[i]) != k
    ensures |r| <= |xs|
  {
    if xs == [] then []
    else (if key(xs[0]) == k then [] else [xs[0]]) + RemoveKey(xs[1..], key, k)
  }

  /** A row survives the removal exactly when it was there and has another key. */
  lemma {:induction false} RemoveKeyMember<T>(xs: seq<T>, key: T -> nat, k: nat, x: T)
    ensures x in RemoveKey(xs, key, k) <==> x in xs && key(x) != k
  {
    if xs != [] {
      RemoveKeyMember(xs[1..], key, k, x);
      assert x in xs <==> x == xs[0] || x in xs[1..];
    }
  }

  /** When keys are unique (increasing), removing the key of row `i` removes exactly that row. */
  lemma {:induction false} RemoveKeyAt<T>(xs: seq<T>, key: T -> nat, i: nat)
    requires KeysIncreasing(xs, key) && i < |xs|
    ensures RemoveKey(xs, key, key(xs[i])) == xs[..i] + xs[i + 1..]
  {
    forall j | 0 <= j < |xs| && j != i ensures key(xs[j]) != key(xs[i]) {
      if j < i {
        assert key(xs[j]) < key(xs[i]);
      } else {
        assert key(xs[i]) < key(xs[j]);
      }
    }
    RemoveOnlyKey(xs, key, i);
  }

  /** Removing a key that only row `i` has removes exactly that row. */
  lemma {:induction false} RemoveOnlyKey<T>(xs: seq<T>, key: T -> nat, i: nat)
    requires i < |xs| && forall j :: 0 <= j < |xs| && j != i ==> key(xs[j]) != key(xs[i])
    ensures RemoveKey(xs, key, key(xs[i])) == xs[..i] + xs[i + 1..]
  {
    var k := key(xs[i]);
    var tail := xs[1..];
    if i == 0 {
      forall j | 0 <= j < |tail| ensures key(tail[j]) != k {
        assert tail[j] == xs[j + 1];
      }
      RemoveKeyAbsent(tail, key, k);
      assert xs[..0] + xs[1..] == tail;
    } else {
      assert tail[i - 1] == xs[i];
      forall j | 0 <= j < |tail| && j != i - 1 ensures key(tail[j]) != k {
        assert tail[j] == xs[j + 1];
      }
      RemoveOnlyKey(tail, key, i - 1);
      assert key(xs[0]) != k;
      assert tail[..i - 1] == xs[1..i] && tail[i..] == xs[i + 1..];
      calc {
        RemoveKey(xs, key, k);
        [xs[0]] + RemoveKey(tail, key, k);
        [xs[0]] + (xs[1..i] + xs[i + 1..]);
        { assert [xs[0]] + xs[1..i] == xs[..i]; }
        xs[..i] + xs[i + 1..];
      }
    }
  }

  lemma TailIncreasing<T>(xs: seq<T>, key: T -> nat)
    requires KeysIncreasing(xs, key) && xs != []
    ensures KeysIncreasing(xs[1..], key)
  {
    forall a, b | 0 <= a < b < |xs| - 1 ensures key(xs[1..][a]) < key(xs[1..][b]) {
      assert xs[1..][a] == xs[a + 1] && xs[1..][b] == xs[b + 1];
    }
  }

  /** Removing a key no row has leaves the table as it was. */
  lemma {:induction false} RemoveKeyAbsent<T>(xs: seq<T>, key: T -> nat, k: nat)
    requires forall i :: 0 <= i < |xs| ==> key(xs[i]) != k
    ensures RemoveKey(xs, key, k) == xs
  {
    if xs != [] {
      RemoveKeyAbsent(xs[1..], key, k);
      assert [xs[0]] + xs[1..] == xs;
    }
  }

  /** Removing rows keeps the primary-key order. */
  lemma {:induction false} RemoveKeyIncreasing<T>(xs: seq<T>, key: T -> nat, k: nat)
    requires KeysIncreasing(xs, key)
    ensures KeysIncreasing(RemoveKey(xs, key, k), key)
  {
    if xs != [] {
      RemoveKeyIncreasing(xs[1..], key, k);
      var rest := RemoveKey(xs[1..], key, k);
      forall y | y in rest ensures key(xs[0]) < key(y) {
        RemoveKeyMember(xs[1..], key, k, y);
        var j :| 0 <= j < |xs[1..]| && xs[1..][j] == y;
        assert xs[j + 1] == y;
      }
    }
  }

  /** Removing rows keeps any column that was in non-decreasing order so. */
  lemma {:induction false} RemoveKeyNondecreasing<T>(xs: seq<T>, key: T -> nat, k: nat, col: T -> nat)
    requires KeysNondecreasing(xs, col)
    ensures KeysNondecreasing(RemoveKey(xs, key, k), col)
  {
    if xs != [] {
      RemoveKeyNondecreasing(xs[1..], key, k, col);
      var rest := RemoveKey(xs[1..], key, k);
      forall y | y in rest ensures col(xs[0]) <= col(y) {
        RemoveKeyMember(xs[1..], key, k, y);
        var j :| 0 <= j < |xs[1..]| && xs[1..][j] == y;
        assert xs[j + 1] == y;
      }
    }
  }

  /** The table read back to front. */
  function Reverse<T>(xs: seq<T>): (r: seq<T>)
    ensures |r| == |xs|
    ensures forall k :: 0 <= k < |xs| ==> r[k] == xs[|xs| - 1 - k]
  {
    if xs == [] then [] else Reverse(xs[1..]) + [xs[0]]
  }

  /** Read back to front, a table in increasing key order is in decreasing order. */
  lemma ReverseOrders<T>(xs: seq<T>, key: T -> nat)
    ensures KeysIncreasing(xs, key) ==>
            forall i, j :: 0 <= i < j < |xs| ==> key(Reverse(xs)[i]) > key(Reverse(xs)[j])
    ensures KeysNondecreasing(xs, key) ==> KeysNonincreasing(Reverse(xs), key)
  {
  }

  /** Six rows read back to front, cut into halves. */
  lemma ReverseSixHalves<T>(xs: seq<T>)
    requires |xs| == 6
    ensures Reverse(xs)[..3] == [xs[5], xs[4], xs[3]]
    ensures Reverse(xs)[3..] == [xs[2], xs[1], xs[0]]
  {
    var r := Reverse(xs);
    assert r[0] == xs[5] && r[1] == xs[4] && r[2] == xs[3];
    assert r[3] == xs[2] && r[4] == xs[1] && r[5] == xs[0];
  }
}

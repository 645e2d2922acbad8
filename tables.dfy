/**
 * A collection is modelled as the sequence of its documents in insertion
 * order; these are the queries the handlers run against one.
 */
module Tables {
  import opened Wrappers

  /** The position of the first record whose key equals `k` (findOne). */
  function IndexOf<T, K(==)>(rows: seq<T>, key: T -> K, k: K): (r: Option<nat>)
    ensures r.None? <==> forall i :: 0 <= i < |rows| ==> key(rows[i]) != k
    ensures r.Some? ==> r.value < |rows| && key(rows[r.value]) == k
    ensures r.Some? ==> forall i :: 0 <= i < r.value ==> key(rows[i]) != k
  {
    if rows == [] then None
    else if key(rows[0]) == k then Some(0)
    else match IndexOf(rows[1..], key, k)
      case None => None
      case Some(i) => Some(i + 1)
  }

  function RemoveAt<T>(rows: seq<T>, i: nat): (r: seq<T>)
    requires i < |rows|
    ensures |r| == |rows| - 1
    ensures forall j :: 0 <= j < i ==> r[j] == rows[j]
    ensures forall j :: i <= j < |r| ==> r[j] == rows[j + 1]
  {
    rows[..i] + rows[i + 1..]
  }

  function Reverse<T>(s: seq<T>): (r: seq<T>)
    ensures |r| == |s|
    ensures forall i :: 0 <= i < |s| ==> r[i] == s[|s| - 1 - i]
  {
    if s == [] then [] else Reverse(s[1..]) + [s[0]]
  }

  /** The records that satisfy `p`, in their original order. */
  function Filter<T>(s: seq<T>, p: T -> bool): (r: seq<T>)
    ensures |r| <= |s|
    ensures forall i :: 0 <= i < |r| ==> p(r[i])
    ensures multiset(r) <= multiset(s)
  {
    if s == [] then []
    else if p(s[0]) then
      assert s == [s[0]] + s[1..];
      [s[0]] + Filter(s[1..], p)
    else
      assert s == [s[0]] + s[1..];
      Filter(s[1..], p)
  }

  /** Every record of `s` that satisfies `p` is kept. */
  lemma {:induction false} FilterKeeps<T>(s: seq<T>, p: T -> bool, x: T)
    requires x in s && p(x)
    ensures x in Filter(s, p)
  {
    if s[0] != x {
      FilterKeeps(s[1..], p, x);
    }
  }

  /** `.skip(skip).limit(count)`: at most `count` records, starting at `skip`. */
  function Window<T>(s: seq<T>, skip: nat, count: nat): (r: seq<T>)
    ensures |r| == if skip >= |s| then 0 else if count < |s| - skip then count else |s| - skip
    ensures forall i :: 0 <= i < |r| ==> r[i] == s[skip + i]
  {
    if skip >= |s| then []
    else if count < |s| - skip then s[skip..skip + count]
    else s[skip..]
  }

  /** Keys strictly grow along the sequence (ids and creation stamps do). */
  ghost predicate Increasing<T>(rows: seq<T>, key: T -> int) {
    forall i, j :: 0 <= i < j < |rows| ==> key(rows[i]) < key(rows[j])
  }

  /** With strictly increasing keys, looking a record up by its own key finds that record. */
  lemma {:induction false} KeyFindsOwnRecord<T>(rows: seq<T>, key: T -> int, x: T)
    requires Increasing(rows, key) && x in rows
    ensures IndexOf(rows, key, key(x)).Some? && rows[IndexOf(rows, key, key(x)).value] == x
  {
    var i :| 0 <= i < |rows| && rows[i] == x;
    var j := IndexOf(rows, key, key(x)).value;
    assert key(rows[j]) == key(rows[i]);
    assert i == j;
  }

  /** With increasing stamps, the reversed table is ordered newest first. */
  lemma ReverseIsNewestFirst<T>(rows: seq<T>, stamp: T -> int)
    requires Increasing(rows, stamp)
    ensures forall i, j :: 0 <= i < j < |rows| ==> stamp(Reverse(rows)[i]) > stamp(Reverse(rows)[j])
  {
    var r := Reverse(rows);
    forall i, j | 0 <= i < j < |rows|
      ensures stamp(r[i]) > stamp(r[j])
    {
      assert r[i] == rows[|rows| - 1 - i] && r[j] == rows[|rows| - 1 - j];
    }
  }

  /**
   * With distinct ids, removing the record found for `k` removes exactly
   * the records with that id and keeps every other one.
   */
  lemma RemoveOnlyThat<T>(rows: seq<T>, key: T -> int, k: int)
    requires Increasing(rows, key) && IndexOf(rows, key, k).Some?
    ensures forall x :: x in RemoveAt(rows, IndexOf(rows, key, k).value) <==> x in rows && key(x) != k
    ensures Increasing(RemoveAt(rows, IndexOf(rows, key, k).value), key)
  {
    var i := IndexOf(rows, key, k).value;
    var r := RemoveAt(rows, i);
    forall x
      ensures x in r <==> x in rows && key(x) != k
    {
      if x in r {
        var j :| 0 <= j < |r| && r[j] == x;
        if j < i {
          assert rows[j] == x;
        } else {
          assert rows[j + 1] == x;
        }
      }
      if x in rows && key(x) != k {
        var j :| 0 <= j < |rows| && rows[j] == x;
        if j < i {
          assert r[j] == x;
        } else {
          assert j != i;
          assert r[j - 1] == x;
        }
      }
    }
  }

  /** Removing a record keeps any increasing key increasing. */
  lemma RemovePreservesIncreasing<T>(rows: seq<T>, i: nat, key: T -> int)
    requires i < |rows| && Increasing(rows, key)
    ensures Increasing(RemoveAt(rows, i), key)
  {
    var r := RemoveAt(rows, i);
    forall a, b | 0 <= a < b < |r|
      ensures key(r[a]) < key(r[b])
    {
      var a' := if a < i then a else a + 1;
      var b' := if b < i then b else b + 1;
      assert r[a] == rows[a'] && r[b] == rows[b'];
    }
  }

  /** Appending a record with a larger key than all others keeps the key increasing. */
  lemma AppendPreservesIncreasing<T>(rows: seq<T>, x: T, key: T -> int)
    requires Increasing(rows, key)
    requires forall i :: 0 <= i < |rows| ==> key(rows[i]) < key(x)
    ensures Increasing(rows + [x], key)
  {
  }

  /** Replacing a record by one with the same key keeps the key increasing. */
  lemma ReplacePreservesIncreasing<T>(rows: seq<T>, i: nat, x: T, key: T -> int)
    requires i < |rows| && Increasing(rows, key) && key(x) == key(rows[i])
    ensures Increasing(rows[i := x], key)
  {
    var r := rows[i := x];
    forall a, b | 0 <= a < b < |r|
      ensures key(r[a]) < key(r[b])
    {
      assert key(r[a]) == key(rows[a]) && key(r[b]) == key(rows[b]);
    }
  }

  /** A record is kept by Filter exactly when it is in the input and satisfies `p`. */
  lemma FilterMembers<T>(s: seq<T>, p: T -> bool, x: T)
    ensures x in Filter(s, p) <==> x in s && p(x)
  {
    if x in Filter(s, p) {
      assert x in multiset(Filter(s, p));
    }
    if x in s && p(x) {
      FilterKeeps(s, p, x);
    }
  }

  /** Filter keeps the order of what it keeps, so an increasing key stays increasing. */
  lemma {:induction false} FilterPreservesIncreasing<T>(s: seq<T>, p: T -> bool, key: T -> int)
    requires Increasing(s, key)
    ensures Increasing(Filter(s, p), key)
  {
    if s != [] {
      var rest := Filter(s[1..], p);
      assert Increasing(s[1..], key) by {
        forall a, b | 0 <= a < b < |s[1..]| ensures key(s[1..][a]) < key(s[1..][b]) {
          assert s[1..][a] == s[a + 1] && s[1..][b] == s[b + 1];
        }
      }
      FilterPreservesIncreasing(s[1..], p, key);
      if p(s[0]) {
        forall j | 0 <= j < |rest| ensures key(s[0]) < key(rest[j]) {
          assert rest[j] in multiset(rest);
          assert rest[j] in s[1..];
        }
        var r := [s[0]] + rest;
        forall a, b | 0 <= a < b < |r| ensures key(r[a]) < key(r[b]) {
          if a > 0 {
            assert r[a] == rest[a - 1] && r[b] == rest[b - 1];
          } else {
            assert r[b] == rest[b - 1];
          }
        }
      }
    }
  }

  /** A record is in the reversed sequence exactly when it is in the sequence. */
  lemma ReverseMembers<T>(s: seq<T>, x: T)
    ensures x in Reverse(s) <==> x in s
  {
    var r := Reverse(s);
    if x in r {
      var i :| 0 <= i < |r| && r[i] == x;
      assert s[|s| - 1 - i] == x;
    }
    if x in s {
      var i :| 0 <= i < |s| && s[i] == x;
      assert r[|s| - 1 - i] == x;
    }
  }

  /** Filtering a table with one more record at the end. */
  lemma {:induction false} FilterAppend<T>(s: seq<T>, x: T, p: T -> bool)
    ensures Filter(s + [x], p) == Filter(s, p) + (if p(x) then [x] else [])
  {
    if s == [] {
      assert [] + [x] == [x];
      assert [x][1..] == [];
    } else {
      assert (s + [x])[0] == s[0];
      assert (s + [x])[1..] == s[1..] + [x];
      FilterAppend(s[1..], x, p);
    }
  }

  /** The record appended last comes first once the table is reversed. */
  lemma ReverseAppend<T>(s: seq<T>, x: T)
    ensures Reverse(s + [x]) == [x] + Reverse(s)
  {
    var r := Reverse(s + [x]);
    assert r[0] == x;
    forall i | 1 <= i < |r|
      ensures r[i] == ([x] + Reverse(s))[i]
    {
      assert r[i] == (s + [x])[|s| - i];
    }
  }
}

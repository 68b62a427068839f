/** How the model reads a table: a scan of its keys in ascending order
    (the order the model picks where a query leaves it open: `rows[0]`
    without ORDER BY, `LIMIT 1`, ties of ORDER BY), a WHERE filter, and
    ORDER BY ... DESC. */
module Query {
  import opened Values

  predicate Increasing(ids: seq<Id>)
  {
    forall i, j :: 0 <= i < j < |ids| ==> ids[i] < ids[j]
  }

  predicate Distinct<T(==)>(s: seq<T>)
  {
    forall i, j :: 0 <= i < j < |s| ==> s[i] != s[j]
  }

  predicate IsLeast(m: Id, s: set<Id>)
  {
    m in s && forall x :: x in s ==> m <= x
  }

  lemma {:induction false} MinExists(s: set<Id>)
    requires s != {}
    ensures exists m :: IsLeast(m, s)
    decreases |s|
  {
    var y :| y in s;
    var rest := s - {y};
    if rest == {} {
      assert s == {y};
      assert IsLeast(y, s);
    } else {
      MinExists(rest);
      var m :| IsLeast(m, rest);
      var w := if y < m then y else m;
      assert forall x :: x in s ==> x == y || x in rest;
      assert IsLeast(w, s);
    }
  }

  lemma IncreasingCons(x: Id, rest: seq<Id>)
    requires Increasing(rest)
    requires forall id :: id in rest ==> x < id
    ensures Increasing([x] + rest)
  {
    var r := [x] + rest;
    forall i, j | 0 <= i < j < |r| ensures r[i] < r[j] {
      assert r[j] == rest[j - 1];
      if i > 0 {
        assert r[i] == rest[i - 1];
      } else {
        assert rest[j - 1] in rest;
      }
    }
  }

  /** The keys of a table, smallest first. */
  function Keys<T>(m: map<Id, T>): (ids: seq<Id>)
    ensures Increasing(ids)
    ensures forall id :: id in ids <==> id in m
    decreases |m|
  {
    if |m| == 0 then []
    else
      MinExists(m.Keys);
      var k :| IsLeast(k, m.Keys);
      var smaller := m - {k};
      assert smaller.Keys == m.Keys - {k};
      var rest := Keys(smaller);
      IncreasingCons(k, rest);
      [k] + rest
  }

  /** The keys among `ids` whose rows satisfy `keep`, in the same order. */
  function Where<T>(ids: seq<Id>, m: map<Id, T>, keep: T -> bool): (r: seq<Id>)
    requires forall id :: id in ids ==> id in m
    ensures forall id :: id in r <==> id in ids && keep(m[id])
  {
    if ids == [] then []
    else
      assert forall id :: id in ids <==> id == ids[0] || id in ids[1..] by {
        assert ids == [ids[0]] + ids[1..];
      }
      (if keep(m[ids[0]]) then [ids[0]] else []) + Where(ids[1..], m, keep)
  }

  lemma {:induction false} WhereIncreasing<T>(ids: seq<Id>, m: map<Id, T>, keep: T -> bool)
    requires forall id :: id in ids ==> id in m
    requires Increasing(ids)
    ensures Increasing(Where(ids, m, keep))
  {
    if ids != [] {
      var rest := Where(ids[1..], m, keep);
      WhereIncreasing(ids[1..], m, keep);
      if keep(m[ids[0]]) {
        forall id | id in rest ensures ids[0] < id {
          var k :| 0 <= k < |ids[1..]| && ids[1..][k] == id;
          assert ids[k + 1] == id;
        }
        IncreasingCons(ids[0], rest);
      }
    }
  }

  /** `SELECT ... FROM m WHERE keep`, as keys in ascending order. */
  function Select<T>(m: map<Id, T>, keep: T -> bool): (r: seq<Id>)
    ensures Increasing(r)
    ensures forall id :: id in r <==> id in m && keep(m[id])
  {
    WhereIncreasing(Keys(m), m, keep);
    Where(Keys(m), m, keep)
  }

  /** A scan that can only find `id`, and does, finds it once. */
  lemma SingleKey(ids: seq<Id>, id: Id)
    requires Increasing(ids)
    requires forall x :: x in ids <==> x == id
    ensures ids == [id]
  {
    assert id in ids;
    assert ids[0] in ids;
    assert ids[|ids| - 1] in ids;
  }

  /** The first key of an ascending scan is the least. */
  lemma FirstIsLeast(ids: seq<Id>)
    requires Increasing(ids) && ids != []
    ensures forall id :: id in ids ==> ids[0] <= id
  {
    forall id | id in ids ensures ids[0] <= id {
      var k :| 0 <= k < |ids| && ids[k] == id;
      assert k == 0 || ids[0] < ids[k];
    }
  }

  lemma FirstIsMember<T>(s: seq<T>)
    ensures s != [] ==> s[0] in s
  {
  }

  lemma IncreasingIsDistinct(ids: seq<Id>)
    requires Increasing(ids)
    ensures Distinct(ids)
  {
  }

  predicate SortedDesc(s: seq<Id>, key: Id -> int)
  {
    forall i, j :: 0 <= i < j < |s| ==> key(s[i]) >= key(s[j])
  }

  function Insert(x: Id, s: seq<Id>, key: Id -> int): (r: seq<Id>)
    ensures multiset(r) == multiset(s) + multiset{x}
  {
    if s == [] then [x]
    else if key(x) >= key(s[0]) then [x] + s
    else
      assert s == [s[0]] + s[1..];
      [s[0]] + Insert(x, s[1..], key)
  }

  lemma {:induction false} InsertSorted(x: Id, s: seq<Id>, key: Id -> int)
    requires SortedDesc(s, key)
    ensures SortedDesc(Insert(x, s, key), key)
  {
    if s != [] && key(x) < key(s[0]) {
      var tail := s[1..];
      InsertSorted(x, tail, key);
      assert forall k :: 0 <= k < |tail| ==> key(tail[k]) <= key(s[0]) by {
        forall k | 0 <= k < |tail| ensures key(tail[k]) <= key(s[0]) {
          assert tail[k] == s[k + 1];
        }
      }
      InsertBounded(x, tail, key, key(s[0]));
      var rest := Insert(x, tail, key);
      var r := [s[0]] + rest;
      assert r == Insert(x, s, key);
      forall i, j | 0 <= i < j < |r| ensures key(r[i]) >= key(r[j]) {
        assert r[j] == rest[j - 1];
        if i > 0 {
          assert r[i] == rest[i - 1];
        }
      }
    }
  }

  /** Inserting below a bound keeps every key below it. */
  lemma InsertBounded(x: Id, t: seq<Id>, key: Id -> int, b: int)
    requires key(x) <= b && forall k :: 0 <= k < |t| ==> key(t[k]) <= b
    ensures forall k :: 0 <= k < |Insert(x, t, key)| ==> key(Insert(x, t, key)[k]) <= b
  {
    var r := Insert(x, t, key);
    forall k | 0 <= k < |r| ensures key(r[k]) <= b {
      var y := r[k];
      assert y in multiset(r);
      if y != x {
        assert y in multiset(t);
        var m :| 0 <= m < |t| && t[m] == y;
      }
    }
  }

  lemma DistinctByCount<T>(s: seq<T>)
    requires forall y :: multiset(s)[y] <= 1
    ensures Distinct(s)
  {
    forall i, j | 0 <= i < j < |s| ensures s[i] != s[j] {
      var a, c := s[..j], s[j + 1..];
      assert s == a + [s[j]] + c;
      assert multiset(s)[s[j]] == multiset(a)[s[j]] + 1 + multiset(c)[s[j]];
      assert a[i] == s[i];
      assert multiset(a)[s[i]] >= 1;
    }
  }

  lemma {:induction false} CountOfDistinct<T>(s: seq<T>)
    requires Distinct(s)
    ensures forall y :: multiset(s)[y] <= 1
  {
    if s != [] {
      CountOfDistinct(s[1..]);
      assert s == [s[0]] + s[1..];
      assert s[0] !in s[1..];
    }
  }

  /** `ORDER BY key DESC`, as an insertion sort: the result is a permutation
      of `s`, ordered by `key` from largest to smallest. */
  function SortDesc(s: seq<Id>, key: Id -> int): (r: seq<Id>)
    ensures SortedDesc(r, key)
    ensures multiset(r) == multiset(s)
  {
    if s == [] then []
    else
      var rest := SortDesc(s[1..], key);
      assert s == [s[0]] + s[1..];
      InsertSorted(s[0], rest, key);
      Insert(s[0], rest, key)
  }

  /** `SELECT ... FROM m WHERE keep ORDER BY key DESC`, as keys: every
      matching key once, none other, largest `key` first. */
  function SelectOrdered<T>(m: map<Id, T>, keep: T -> bool, key: T -> int): (r: seq<Id>)
    ensures Distinct(r)
    ensures forall id :: id in r <==> id in m && keep(m[id])
    ensures forall i, j :: 0 <= i < j < |r| ==> key(m[r[i]]) >= key(m[r[j]])
  {
    var ids := Select(m, keep);
    var r := SortDesc(ids, id => if id in m then key(m[id]) else 0);
    PermutationOfDistinct(ids, r);
    r
  }

  /** A reordering of distinct keys holds the same keys, each once. */
  lemma PermutationOfDistinct(ids: seq<Id>, r: seq<Id>)
    requires Increasing(ids)
    requires multiset(r) == multiset(ids)
    ensures forall id :: id in r <==> id in ids
    ensures Distinct(r)
  {
    forall id ensures id in r <==> id in ids {
      assert id in r <==> id in multiset(r);
    }
    IncreasingIsDistinct(ids);
    CountOfDistinct(ids);
    DistinctByCount(r);
  }

  /** The rows of `m` under the keys `ids`, in that order. */
  function Rows<T>(m: map<Id, T>, ids: seq<Id>): (r: seq<T>)
    requires forall id :: id in ids ==> id in m
    ensures |r| == |ids| && forall k :: 0 <= k < |ids| ==> r[k] == m[ids[k]]
  {
    seq(|ids|, k requires 0 <= k < |ids| => m[ids[k]])
  }
}

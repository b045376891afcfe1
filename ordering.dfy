/** The order in which the relational store returns rows for `ORDER BY`:
    a comparison of SQL values and a sort that is a permutation of its input. */
module Ordering {

  /** The storage classes the shop's sort keys take. SQLite orders every
      INTEGER before every TEXT. */
  datatype SqlValue = Integer(i: int) | Text(t: string)

  /** The BINARY collation: lexicographic order of the characters. Comparing
      Unicode scalar values in order is the same as comparing their UTF-8
      bytes, which is what the collation does. */
  predicate LexLe(a: string, b: string) {
    a == [] || (b != [] && (a[0] < b[0] || (a[0] == b[0] && LexLe(a[1..], b[1..]))))
  }

  predicate SqlLe(x: SqlValue, y: SqlValue) {
    match (x, y)
    case (Integer(i), Integer(j)) => i <= j
    case (Integer(_), Text(_)) => true
    case (Text(_), Integer(_)) => false
    case (Text(s), Text(t)) => LexLe(s, t)
  }

  lemma {:induction false} LexLeTotal(a: string, b: string)
    ensures LexLe(a, b) || LexLe(b, a)
  {
    if a != [] && b != [] && a[0] == b[0] {
      LexLeTotal(a[1..], b[1..]);
    }
  }

  lemma {:induction false} LexLeTransitive(a: string, b: string, c: string)
    requires LexLe(a, b) && LexLe(b, c)
    ensures LexLe(a, c)
  {
    if a != [] && a[0] == b[0] && b[0] == c[0] {
      LexLeTransitive(a[1..], b[1..], c[1..]);
    }
  }

  lemma SqlLeTotal(x: SqlValue, y: SqlValue)
    ensures SqlLe(x, y) || SqlLe(y, x)
  {
    if x.Text? && y.Text? {
      LexLeTotal(x.t, y.t);
    }
  }

  lemma SqlLeTransitive(x: SqlValue, y: SqlValue, z: SqlValue)
    requires SqlLe(x, y) && SqlLe(y, z)
    ensures SqlLe(x, z)
  {
    if x.Text? && y.Text? && z.Text? {
      LexLeTransitive(x.t, y.t, z.t);
    }
  }

  /** Every earlier element's key is at most every later one's. */
  ghost predicate SortedBy<T>(s: seq<T>, key: T -> SqlValue) {
    forall i, j :: 0 <= i < j < |s| ==> SqlLe(key(s[i]), key(s[j]))
  }

  /** Inserts `x` before the first element whose key is not below `x`'s. */
  function InsertBy<T>(x: T, s: seq<T>, key: T -> SqlValue): (r: seq<T>)
    ensures multiset(r) == multiset(s) + multiset{x}
  {
    if s == [] || SqlLe(key(x), key(s[0])) then
      [x] + s
    else
      assert s == [s[0]] + s[1..];
      [s[0]] + InsertBy(x, s[1..], key)
  }

  lemma {:induction false} InsertBySorted<T>(x: T, s: seq<T>, key: T -> SqlValue)
    requires SortedBy(s, key)
    ensures SortedBy(InsertBy(x, s, key), key)
  {
    var r := InsertBy(x, s, key);
    if s == [] {
    } else if SqlLe(key(x), key(s[0])) {
      forall j | 1 <= j < |r| ensures SqlLe(key(x), key(r[j])) {
        if j > 1 {
          SqlLeTransitive(key(x), key(s[0]), key(s[j - 1]));
        }
      }
    } else {
      SqlLeTotal(key(x), key(s[0]));
      var rest := InsertBy(x, s[1..], key);
      InsertBySorted(x, s[1..], key);
      forall j | 0 <= j < |rest| ensures SqlLe(key(s[0]), key(rest[j])) {
        assert rest[j] in multiset(rest);
        if rest[j] != x {
          assert rest[j] in multiset(s[1..]);
          var k :| 0 <= k < |s[1..]| && s[1..][k] == rest[j];
          assert s[k + 1] == rest[j];
        }
      }
    }
  }

  /** Insertion sort. The result holds the same elements, in key order. */
  function SortBy<T>(s: seq<T>, key: T -> SqlValue): (r: seq<T>)
    ensures multiset(r) == multiset(s)
    ensures SortedBy(r, key)
  {
    if s == [] then
      []
    else
      var rest := SortBy(s[1..], key);
      InsertBySorted(s[0], rest, key);
      assert s == [s[0]] + s[1..];
      InsertBy(s[0], rest, key)
  }

  /** No two elements share an `id`. */
  ghost predicate DistinctBy<T>(s: seq<T>, id: T -> int) {
    forall i, j :: 0 <= i < j < |s| ==> id(s[i]) != id(s[j])
  }

  /** With distinct ids, every element occurs at most once. */
  lemma {:induction false} DistinctOccursOnce<T>(s: seq<T>, id: T -> int, x: T)
    requires DistinctBy(s, id)
    ensures multiset(s)[x] <= 1
  {
    if s != [] {
      assert s == [s[0]] + s[1..];
      DistinctOccursOnce(s[1..], id, x);
      if s[0] == x {
        assert x !in s[1..] by {
          forall k | 0 <= k < |s[1..]| ensures s[1..][k] != x {
            assert id(s[k + 1]) != id(s[0]);
          }
        }
      }
    }
  }

  /** An element found at two positions occurs at least twice. */
  lemma TwoPositionsTwice<T>(s: seq<T>, i: int, j: int)
    requires 0 <= i < j < |s| && s[i] == s[j]
    ensures multiset(s)[s[i]] >= 2
  {
    assert s == s[..j] + [s[j]] + s[j + 1..];
    assert s[i] in s[..j];
  }

  /** A permutation of a sequence with distinct ids has distinct ids. */
  lemma PermutationKeepsDistinct<T>(a: seq<T>, b: seq<T>, id: T -> int)
    requires multiset(a) == multiset(b)
    requires DistinctBy(b, id)
    ensures DistinctBy(a, id)
  {
    forall i, j | 0 <= i < j < |a| ensures id(a[i]) != id(a[j]) {
      if id(a[i]) == id(a[j]) {
        assert a[i] in multiset(b) && a[j] in multiset(b);
        var p :| 0 <= p < |b| && b[p] == a[i];
        var q :| 0 <= q < |b| && b[q] == a[j];
        assert p == q;
        TwoPositionsTwice(a, i, j);
        DistinctOccursOnce(b, id, a[i]);
        assert false;
      }
    }
  }
}

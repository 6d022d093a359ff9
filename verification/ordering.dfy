/**
 * The order of the backend's date and timestamp columns. Dates and
 * timestamps travel as fixed-width ISO 8601 strings, whose character order is
 * their chronological order, so "latest first" is descending string order.
 */
module Ordering {

  /** `a` comes no later than `b` in character (lexicographic) order. */
  predicate NoLater(a: string, b: string)
  {
    |a| == 0 || (|b| > 0 && (a[0] < b[0] || (a[0] == b[0] && NoLater(a[1..], b[1..]))))
  }

  /** Any two strings are comparable. */
  lemma {:induction false} NoLaterTotal(a: string, b: string)
    ensures NoLater(a, b) || NoLater(b, a)
  {
    if |a| > 0 && |b| > 0 && a[0] == b[0] {
      NoLaterTotal(a[1..], b[1..]);
    }
  }

  /** The order is transitive. */
  lemma {:induction false} NoLaterTransitive(a: string, b: string, c: string)
    requires NoLater(a, b) && NoLater(b, c)
    ensures NoLater(a, c)
  {
    if |a| > 0 && a[0] == b[0] && b[0] == c[0] {
      NoLaterTransitive(a[1..], b[1..], c[1..]);
    }
  }

  /** Two strings that first differ at position `k` are ordered by their characters there. */
  lemma {:induction false} FirstDifferenceDecides(a: string, b: string, k: nat)
    requires k < |a| && k < |b| && a[..k] == b[..k] && a[k] < b[k]
    ensures NoLater(a, b) && !NoLater(b, a)
  {
    if k > 0 {
      assert a[0] == a[..k][0] == b[..k][0] == b[0];
      assert a[1..][..k - 1] == a[1..k] == a[..k][1..];
      assert b[1..][..k - 1] == b[1..k] == b[..k][1..];
      FirstDifferenceDecides(a[1..], b[1..], k - 1);
    }
  }

  /** Keys never increase along the sequence: latest first. */
  predicate LatestFirst<T>(s: seq<T>, key: T -> string)
  {
    forall i, j :: 0 <= i < j < |s| ==> NoLater(key(s[j]), key(s[i]))
  }

  /** Inserts `x` before the first element whose key is no later than its own. */
  function InsertByKey<T(==)>(x: T, s: seq<T>, key: T -> string): (r: seq<T>)
    ensures |r| == |s| + 1
    ensures multiset(r) == multiset(s) + multiset{x}
  {
    if |s| == 0 then [x]
    else if NoLater(key(s[0]), key(x)) then [x] + s
    else
      assert s == [s[0]] + s[1..];
      [s[0]] + InsertByKey(x, s[1..], key)
  }

  /** Inserting into a latest-first list keeps it latest-first. */
  lemma {:induction false} InsertByKeyKeepsOrder<T>(x: T, s: seq<T>, key: T -> string)
    requires LatestFirst(s, key)
    ensures LatestFirst(InsertByKey(x, s, key), key)
  {
    if |s| == 0 {
      assert InsertByKey(x, s, key) == [x];
    } else if NoLater(key(s[0]), key(x)) {
      var r := [x] + s;
      assert InsertByKey(x, s, key) == r;
      forall j | 0 < j < |r|
        ensures NoLater(key(r[j]), key(r[0]))
      {
        if j > 1 {
          assert r[j] == s[j - 1];
          NoLaterTransitive(key(s[j - 1]), key(s[0]), key(x));
        }
      }
    } else {
      var rest := InsertByKey(x, s[1..], key);
      InsertByKeyKeepsOrder(x, s[1..], key);
      NoLaterTotal(key(s[0]), key(x));
      forall k | 0 <= k < |rest|
        ensures NoLater(key(rest[k]), key(s[0]))
      {
        assert rest[k] in multiset(rest);
        if rest[k] != x {
          assert rest[k] in s[1..];
        }
      }
      var r := [s[0]] + rest;
      assert InsertByKey(x, s, key) == r;
      forall i, j | 0 <= i < j < |r|
        ensures NoLater(key(r[j]), key(r[i]))
      {
        if i > 0 {
          assert r[i] == rest[i - 1] && r[j] == rest[j - 1];
        } else {
          assert r[j] == rest[j - 1];
        }
      }
    }
  }

  /**
   * The rows of a query ordered by a date or timestamp column, descending:
   * a permutation of the stored rows, latest first.
   */
  function LatestFirstBy<T(==)>(rows: seq<T>, key: T -> string): (r: seq<T>)
    ensures |r| == |rows|
    ensures multiset(r) == multiset(rows)
    ensures LatestFirst(r, key)
  {
    if |rows| == 0 then []
    else
      var sortedTail := LatestFirstBy(rows[1..], key);
      assert rows == [rows[0]] + rows[1..];
      InsertByKeyKeepsOrder(rows[0], sortedTail, key);
      InsertByKey(rows[0], sortedTail, key)
  }
}

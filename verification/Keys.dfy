/** Byte order on storage keys, and the key-ordered view of a repository.

    A repository is a map from resource id to stored value.  The storage engine
    iterates over it in key order; `RowsOf` is that iteration.
 */
module Keys {

  /** A stored value together with the id it is stored under. */
  datatype Row<T> = Row(key: string, value: T)

  /** Lexicographic order, as used by the storage engine on keys. */
  predicate Less(a: string, b: string)
  {
    if b == [] then false
    else if a == [] then true
    else if a[0] != b[0] then a[0] < b[0]
    else Less(a[1..], b[1..])
  }

  /** The order of a dictionary: a proper prefix comes first, and otherwise the first
      character that differs decides. */
  lemma {:induction false} LessMeaning(a: string, b: string)
    ensures Less(a, b) <==>
      exists n: nat :: n <= |a| && n < |b| && a[..n] == b[..n] && (n == |a| || a[n] < b[n])
  {
    if Less(a, b) {
      var n := FirstDifference(a, b);
    } else if n: nat :| n <= |a| && n < |b| && a[..n] == b[..n] && (n == |a| || a[n] < b[n]) {
      DecidedAt(a, b, n);
    }
  }

  lemma {:induction false} FirstDifference(a: string, b: string) returns (n: nat)
    requires Less(a, b)
    ensures n <= |a| && n < |b| && a[..n] == b[..n] && (n == |a| || a[n] < b[n])
  {
    if a == [] || a[0] != b[0] {
      n := 0;
    } else {
      var k := FirstDifference(a[1..], b[1..]);
      n := k + 1;
      assert a[..n] == [a[0]] + a[1..][..k] && b[..n] == [b[0]] + b[1..][..k];
    }
  }

  lemma {:induction false} DecidedAt(a: string, b: string, n: nat)
    requires n <= |a| && n < |b| && a[..n] == b[..n] && (n == |a| || a[n] < b[n])
    ensures Less(a, b)
  {
    if n > 0 {
      assert a[0] == a[..n][0] && b[0] == b[..n][0];
      assert a[1..][..n - 1] == a[..n][1..] && b[1..][..n - 1] == b[..n][1..];
      DecidedAt(a[1..], b[1..], n - 1);
    }
  }

  lemma {:induction false} LessTransitive(a: string, b: string, c: string)
    requires Less(a, b) && Less(b, c)
    ensures Less(a, c)
  {
    if a != [] && a[0] == b[0] && b[0] == c[0] {
      LessTransitive(a[1..], b[1..], c[1..]);
    }
  }

  /** Exactly one of "smaller", "equal" and "larger" holds of two keys. */
  lemma {:induction false} LessTotal(a: string, b: string)
    ensures Less(a, b) || Less(b, a) || a == b
    ensures !(Less(a, b) && Less(b, a))
    ensures a == b ==> !Less(a, b)
  {
    if a != [] && b != [] && a[0] == b[0] {
      LessTotal(a[1..], b[1..]);
      assert a == [a[0]] + a[1..];
      assert b == [b[0]] + b[1..];
    }
  }

  /** `k` is not below `c`, and `c` is not below `d`, so `k` is not below `d`. */
  lemma NotLessTransitive(k: string, c: string, d: string)
    requires !Less(k, c) && !Less(c, d)
    ensures !Less(k, d)
  {
    LessTotal(k, c);
    LessTotal(c, d);
    LessTotal(k, d);
    if Less(k, d) {
      if c == d {
      } else if k == c {
      } else {
        LessTransitive(c, k, d);
      }
    }
  }

  /** Keys strictly increase. */
  ghost predicate Sorted<T>(rows: seq<Row<T>>)
  {
    forall i, j :: 0 <= i < j < |rows| ==> Less(rows[i].key, rows[j].key)
  }

  ghost predicate IsMin(m: string, keys: set<string>)
  {
    m in keys && forall k | k in keys :: k == m || Less(m, k)
  }

  lemma {:induction false} MinExists(keys: set<string>)
    requires keys != {}
    ensures exists m :: IsMin(m, keys)
    decreases |keys|
  {
    var x :| x in keys;
    if keys == {x} {
      assert IsMin(x, keys);
    } else {
      MinExists(keys - {x});
      var y :| IsMin(y, keys - {x});
      LessTotal(x, y);
      var m := if Less(x, y) then x else y;
      forall k | k in keys
        ensures k == m || Less(m, k)
      {
        if k != x && k != y && m == x {
          LessTransitive(x, y, k);
        }
      }
      assert IsMin(m, keys);
    }
  }

  /** The smallest key, which is where iteration starts. */
  function MinKey(keys: set<string>): (m: string)
    requires keys != {}
    ensures IsMin(m, keys)
  {
    MinExists(keys);
    assert forall a, b | a in keys && b in keys && Less(a, b) :: !Less(b, a) by {
      forall a, b | a in keys && b in keys && Less(a, b)
        ensures !Less(b, a)
      {
        LessTotal(a, b);
      }
    }
    assert exists m :: m in keys && forall k | k in keys :: k == m || Less(m, k) by {
      var m :| IsMin(m, keys);
    }
    var m :| m in keys && forall k | k in keys :: k == m || Less(m, k);
    m
  }

  lemma RemoveShrinks<T>(m: map<string, T>, k: string)
    requires k in m
    ensures |m| == |m - {k}| + 1
  {
    assert (m - {k}).Keys == m.Keys - {k};
  }

  /** All rows of a repository in iteration order. */
  function RowsOf<T>(m: map<string, T>): (rows: seq<Row<T>>)
    decreases |m|
  {
    if m == map[] then []
    else
      var k := MinKey(m.Keys);
      RemoveShrinks(m, k);
      [Row(k, m[k])] + RowsOf(m - {k})
  }

  /** Exactly the stored entries occur in the iteration. */
  lemma {:induction false} RowsOfMembers<T>(m: map<string, T>, r: Row<T>)
    ensures r in RowsOf(m) <==> r.key in m && m[r.key] == r.value
    decreases |m|
  {
    if m != map[] {
      var k := MinKey(m.Keys);
      RemoveShrinks(m, k);
      RowsOfMembers(m - {k}, r);
      assert r in RowsOf(m) <==> r == Row(k, m[k]) || r in RowsOf(m - {k});
    }
  }

  /** The iteration visits strictly increasing keys. */
  lemma {:induction false} RowsOfSorted<T>(m: map<string, T>)
    ensures Sorted(RowsOf(m))
    decreases |m|
  {
    if m != map[] {
      var k := MinKey(m.Keys);
      RemoveShrinks(m, k);
      var rest := RowsOf(m - {k});
      RowsOfSorted(m - {k});
      forall i | 0 <= i < |rest|
        ensures Less(k, rest[i].key)
      {
        RowsOfMembers(m - {k}, rest[i]);
      }
    }
  }
}

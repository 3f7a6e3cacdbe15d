/** A database table as a sequence of rows, and the effect of the three
    statements the controllers issue against it: UPDATE ... WHERE,
    DELETE ... WHERE, and the row count that ExecuteNonQuery reports. */
module Tables {

  /** UPDATE ... SET f WHERE hit: every row that matches is rewritten by f,
      every other row is left as it was, and no row moves. */
  function UpdateWhere<T>(rows: seq<T>, hit: T -> bool, f: T -> T): (r: seq<T>)
    ensures |r| == |rows|
    ensures forall i :: 0 <= i < |rows| ==> r[i] == if hit(rows[i]) then f(rows[i]) else rows[i]
  {
    if rows == [] then [] else [if hit(rows[0]) then f(rows[0]) else rows[0]] + UpdateWhere(rows[1..], hit, f)
  }

  /** DELETE ... WHERE hit: the rows that do not match, in their order. */
  function DeleteWhere<T>(rows: seq<T>, hit: T -> bool): (r: seq<T>)
    ensures |r| <= |rows|
    ensures forall i :: 0 <= i < |r| ==> !hit(r[i])
    ensures forall x :: x in rows && !hit(x) ==> x in r
    ensures forall x :: x in r ==> x in rows
  {
    if rows == [] then []
    else (if hit(rows[0]) then [] else [rows[0]]) + DeleteWhere(rows[1..], hit)
  }

  /** DELETE keeps the surviving rows in their order: deleting from two
      stretches of a table one after the other is deleting from the whole. */
  lemma {:induction false} DeleteWhereAppend<T>(a: seq<T>, b: seq<T>, hit: T -> bool)
    ensures DeleteWhere(a + b, hit) == DeleteWhere(a, hit) + DeleteWhere(b, hit)
  {
    if a == [] {
      assert a + b == b;
    } else {
      assert (a + b)[0] == a[0];
      assert (a + b)[1..] == a[1..] + b;
      DeleteWhereAppend(a[1..], b, hit);
    }
  }

  /** The number of rows a statement WHERE hit affects. */
  function CountWhere<T>(rows: seq<T>, hit: T -> bool): (n: nat)
    ensures n <= |rows|
    ensures n == 0 <==> forall i :: 0 <= i < |rows| ==> !hit(rows[i])
  {
    if rows == [] then 0 else (if hit(rows[0]) then 1 else 0) + CountWhere(rows[1..], hit)
  }

  /** A statement that matches some row affects at least one. */
  lemma CountPositive<T>(rows: seq<T>, hit: T -> bool, i: int)
    requires 0 <= i < |rows| && hit(rows[i])
    ensures CountWhere(rows, hit) > 0
  {
  }

  /** A statement that matches no row leaves the table as it was. */
  lemma UpdateNothing<T>(rows: seq<T>, hit: T -> bool, f: T -> T)
    requires CountWhere(rows, hit) == 0
    ensures UpdateWhere(rows, hit, f) == rows
  {
  }

  /** Deleting removes exactly the number of rows counted. */
  lemma {:induction false} DeleteCount<T>(rows: seq<T>, hit: T -> bool)
    ensures |DeleteWhere(rows, hit)| == |rows| - CountWhere(rows, hit)
  {
    if rows != [] {
      DeleteCount(rows[1..], hit);
    }
  }

  /** The key column holds no value twice. */
  predicate DistinctKeys<T>(rows: seq<T>, key: T -> int) {
    forall i, j :: 0 <= i < j < |rows| ==> key(rows[i]) != key(rows[j])
  }

  /** Every key is below the identity counter. */
  predicate KeysBelow<T>(rows: seq<T>, key: T -> int, bound: int) {
    forall i :: 0 <= i < |rows| ==> key(rows[i]) < bound
  }

  /** An UPDATE that leaves the key alone keeps the keys as they were. */
  lemma UpdateKeepsKeys<T>(rows: seq<T>, hit: T -> bool, f: T -> T, key: T -> int, bound: int)
    requires DistinctKeys(rows, key)
    requires forall x :: key(f(x)) == key(x)
    ensures DistinctKeys(UpdateWhere(rows, hit, f), key)
    ensures KeysBelow(rows, key, bound) ==> KeysBelow(UpdateWhere(rows, hit, f), key, bound)
  {
    var r := UpdateWhere(rows, hit, f);
    assert forall i :: 0 <= i < |rows| ==> key(r[i]) == key(rows[i]);
  }

  /** An INSERT with the counter's value keeps the keys distinct. */
  lemma AppendKeepsKeys<T>(rows: seq<T>, x: T, key: T -> int, bound: int)
    requires DistinctKeys(rows, key) && KeysBelow(rows, key, bound) && key(x) == bound
    ensures DistinctKeys(rows + [x], key) && KeysBelow(rows + [x], key, bound + 1)
  {
    var r := rows + [x];
    assert forall i :: 0 <= i < |rows| ==> r[i] == rows[i];
  }

  /** A DELETE keeps the remaining keys distinct and below the counter. */
  lemma {:induction false} DeleteKeepsKeys<T>(rows: seq<T>, hit: T -> bool, key: T -> int, bound: int)
    requires DistinctKeys(rows, key) && KeysBelow(rows, key, bound)
    ensures DistinctKeys(DeleteWhere(rows, hit), key) && KeysBelow(DeleteWhere(rows, hit), key, bound)
  {
    if rows != [] {
      var rest := rows[1..];
      assert DistinctKeys(rest, key) by {
        forall i, j | 0 <= i < j < |rest| ensures key(rest[i]) != key(rest[j]) {
          assert rest[i] == rows[i + 1] && rest[j] == rows[j + 1];
        }
      }
      DeleteKeepsKeys(rest, hit, key, bound);
      var tail := DeleteWhere(rest, hit);
      if hit(rows[0]) {
        assert DeleteWhere(rows, hit) == tail;
      } else {
        var r := [rows[0]] + tail;
        assert DeleteWhere(rows, hit) == r;
        forall k | 0 <= k < |tail| ensures key(tail[k]) != key(rows[0]) {
          assert tail[k] in rest;
          var m :| 0 <= m < |rest| && rest[m] == tail[k];
          assert rows[m + 1] == tail[k];
        }
        forall i, j | 0 <= i < j < |r| ensures key(r[i]) != key(r[j]) {
          assert r[j] == tail[j - 1];
          if i > 0 {
            assert r[i] == tail[i - 1];
          }
        }
        forall i | 0 <= i < |r| ensures key(r[i]) < bound {
          if i > 0 {
            assert r[i] == tail[i - 1];
          }
        }
      }
    }
  }
}

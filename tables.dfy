/** One SQLite table with an `INTEGER PRIMARY KEY AUTOINCREMENT` column, as a
    sequence of rows in rowid (= primary key) order. `key` extracts the
    primary key of a row. The operations are the statements Room issues:
    `INSERT OR REPLACE`, `UPDATE ... WHERE id = ?`, `DELETE ... WHERE id = ?`
    and `SELECT ... WHERE id = ?`. */
module Tables {
  import opened Wrappers
  import Lists

  /** Rows in rowid order; in particular no two rows share a key. */
  ghost predicate Ascending<T>(rows: seq<T>, key: T -> int) {
    forall i, j :: 0 <= i < j < |rows| ==> key(rows[i]) < key(rows[j])
  }

  /** Every key is at most `bound` (the table's `sqlite_sequence` entry). */
  ghost predicate KeysAtMost<T(!new)>(rows: seq<T>, key: T -> int, bound: int) {
    forall x | x in rows :: key(x) <= bound
  }

  /** Some row has key `id`. */
  predicate HasKey<T(==,!new)>(rows: seq<T>, key: T -> int, id: int) {
    exists x | x in rows :: key(x) == id
  }

  /** The row a key selects, if any. */
  function Find<T(!new)>(rows: seq<T>, key: T -> int, id: int): (r: Option<T>)
    ensures r.Some? <==> HasKey(rows, key, id)
    ensures r.Some? ==> r.value in rows && key(r.value) == id
  {
    if rows == [] then None
    else if key(rows[0]) == id then Some(rows[0])
    else Find(rows[1..], key, id)
  }

  /** In a table with unique keys the selected row is the only one with
      that key. */
  lemma FindUnique<T(!new)>(rows: seq<T>, key: T -> int, i: nat)
    requires Ascending(rows, key) && i < |rows|
    ensures Find(rows, key, key(rows[i])) == Some(rows[i])
  {
    assert rows[i] in rows;
    var r := Find(rows, key, key(rows[i]));
    var j :| 0 <= j < |rows| && rows[j] == r.value;
  }

  /** The rows in reverse order. */
  function Reversed<T>(s: seq<T>): (r: seq<T>)
    ensures |r| == |s|
    ensures forall i :: 0 <= i < |s| ==> r[i] == s[|s| - 1 - i]
  {
    if s == [] then [] else Reversed(s[1..]) + [s[0]]
  }

  /** `ORDER BY id DESC`: the reversed table holds the same rows, with keys
      strictly descending. */
  lemma ReversedDescending<T(!new)>(s: seq<T>, key: T -> int)
    requires Ascending(s, key)
    ensures forall x :: x in Reversed(s) <==> x in s
    ensures forall i, j :: 0 <= i < j < |s| ==> key(Reversed(s)[i]) > key(Reversed(s)[j])
  {
    var r := Reversed(s);
    forall x | x in s ensures x in r {
      var k :| 0 <= k < |s| && s[k] == x;
      assert r[|s| - 1 - k] == x;
    }
    forall i, j | 0 <= i < j < |s| ensures key(r[i]) > key(r[j]) {
      assert r[i] == s[|s| - 1 - i] && r[j] == s[|s| - 1 - j];
    }
  }

  /** The rowid AUTOINCREMENT gives a row: key 0 stands for "none given"
      (Room binds it as NULL) and gets one more than the largest key the
      table has ever held; any other key is kept. */
  function AssignedKey(last: int, id: int): (k: int)
    ensures id == 0 ==> k == last + 1
    ensures id != 0 ==> k == id
  {
    if id == 0 then last + 1 else id
  }

  /** `INSERT OR REPLACE` of `row`: a row with the same key is replaced,
      otherwise `row` joins the table (which rows it holds is
      `UpsertMembers`). */
  function Upsert<T(!new)>(rows: seq<T>, key: T -> int, row: T): (r: seq<T>)
    requires Ascending(rows, key)
    ensures Ascending(r, key)
    decreases |rows|, 0
  {
    if rows == [] then [row]
    else if key(row) < key(rows[0]) then [row] + rows
    else if key(row) == key(rows[0]) then
      assert forall x | x in rows[1..] :: key(x) > key(rows[0]) by {
        forall x | x in rows[1..] ensures key(x) > key(rows[0]) {
          var j :| 0 <= j < |rows[1..]| && rows[1..][j] == x;
          assert rows[j + 1] == x;
        }
      }
      [row] + rows[1..]
    else
      var tail := Upsert(rows[1..], key, row);
      assert forall x | x in tail :: key(x) > key(rows[0]) by {
        forall x | x in tail ensures key(x) > key(rows[0]) {
          UpsertMembers(rows[1..], key, row, x);
          if x != row {
            var j :| 0 <= j < |rows[1..]| && rows[1..][j] == x;
            assert rows[j + 1] == x;
          }
        }
      }
      PrependAscending(rows[0], tail, key);
      [rows[0]] + tail
  }

  /** After `INSERT OR REPLACE` the table holds `row` and every old row with
      another key, and nothing else. */
  lemma {:induction false} UpsertMembers<T(!new)>(rows: seq<T>, key: T -> int, row: T, x: T)
    requires Ascending(rows, key)
    ensures x in Upsert(rows, key, row) <==> x == row || (x in rows && key(x) != key(row))
    decreases |rows|, 1
  {
    if rows != [] {
      TailMembers(rows, key, x);
      if key(row) > key(rows[0]) {
        UpsertMembers(rows[1..], key, row, x);
        assert x in rows ==> x == rows[0] || x in rows[1..];
      }
    }
  }

  /** `INSERT OR REPLACE` of a row within the counter keeps the counter an
      upper bound of the keys. */
  lemma UpsertKeysAtMost<T(!new)>(rows: seq<T>, key: T -> int, row: T, bound: int)
    requires Ascending(rows, key) && KeysAtMost(rows, key, bound) && key(row) <= bound
    ensures KeysAtMost(Upsert(rows, key, row), key, bound)
  {
    forall x | x in Upsert(rows, key, row) ensures key(x) <= bound {
      UpsertMembers(rows, key, row, x);
    }
  }

  /** `UPDATE ... WHERE id = key(row)`: the row with that key becomes `row`;
      without such a row nothing changes. */
  function Replace<T>(rows: seq<T>, key: T -> int, row: T): (r: seq<T>)
    ensures |r| == |rows|
    ensures forall i :: 0 <= i < |rows| ==> key(r[i]) == key(rows[i])
    ensures forall i :: 0 <= i < |rows| ==> r[i] == (if key(rows[i]) == key(row) then row else rows[i])
  {
    if rows == [] then []
    else [if key(rows[0]) == key(row) then row else rows[0]] + Replace(rows[1..], key, row)
  }

  /** `UPDATE` keeps every key, hence the order and the counter bound; its
      rows are the old ones or `row` when its key was present. */
  lemma ReplaceKeepsTable<T(!new)>(rows: seq<T>, key: T -> int, row: T, bound: int)
    requires Ascending(rows, key) && KeysAtMost(rows, key, bound)
    ensures Ascending(Replace(rows, key, row), key) && KeysAtMost(Replace(rows, key, row), key, bound)
    ensures forall x | x in Replace(rows, key, row) :: x in rows || (x == row && HasKey(rows, key, key(row)))
  {
    var r := Replace(rows, key, row);
    forall x | x in r ensures key(x) <= bound && (x in rows || (x == row && HasKey(rows, key, key(row)))) {
      var i :| 0 <= i < |r| && r[i] == x;
      assert rows[i] in rows;
    }
  }

  /** `DELETE ... WHERE id = id`: the row with that key goes, the others stay
      in order. */
  function DeleteKey<T(!new)>(rows: seq<T>, key: T -> int, id: int): (r: seq<T>)
    requires Ascending(rows, key)
    ensures Ascending(r, key)
    ensures forall x :: x in r <==> x in rows && key(x) != id
  {
    if rows == [] then []
    else
      var tail := DeleteKey(rows[1..], key, id);
      assert forall x | x in rows :: x == rows[0] || x in rows[1..] by {
        forall x | x in rows ensures x == rows[0] || x in rows[1..] {
          var j :| 0 <= j < |rows| && rows[j] == x;
          if j > 0 {
            assert rows[1..][j - 1] == x;
          }
        }
      }
      if key(rows[0]) == id then tail
      else
        assert forall x | x in tail :: key(rows[0]) < key(x) by {
          forall x | x in tail ensures key(rows[0]) < key(x) {
            var j :| 0 <= j < |rows[1..]| && rows[1..][j] == x;
            assert rows[j + 1] == x;
          }
        }
        PrependAscending(rows[0], tail, key);
        [rows[0]] + tail
  }

  lemma PrependAscending<T>(x: T, s: seq<T>, key: T -> int)
    requires Ascending(s, key) && forall y | y in s :: key(x) < key(y)
    ensures Ascending([x] + s, key)
  {
    var r := [x] + s;
    forall i, j | 0 <= i < j < |r| ensures key(r[i]) < key(r[j]) {
      assert r[j] == s[j - 1];
      if i > 0 {
        assert r[i] == s[i - 1];
      }
    }
  }

  /** A key above every key present is appended at the end (a fresh
      AUTOINCREMENT rowid). */
  lemma {:induction false} UpsertAbove<T(!new)>(rows: seq<T>, key: T -> int, row: T, bound: int)
    requires Ascending(rows, key) && KeysAtMost(rows, key, bound) && key(row) > bound
    ensures Upsert(rows, key, row) == rows + [row]
  {
    if rows != [] {
      KeysAtMostTail(rows, key, bound);
      UpsertAbove(rows[1..], key, row, bound);
      UpsertPastFirst(rows, key, row);
      assert rows == [rows[0]] + rows[1..];
    }
  }

  lemma UpsertPastFirst<T(!new)>(rows: seq<T>, key: T -> int, row: T)
    requires Ascending(rows, key) && rows != [] && key(row) > key(rows[0])
    ensures Upsert(rows, key, row) == [rows[0]] + Upsert(rows[1..], key, row)
  {
  }

  lemma KeysAtMostTail<T(!new)>(rows: seq<T>, key: T -> int, bound: int)
    requires Ascending(rows, key) && KeysAtMost(rows, key, bound) && rows != []
    ensures KeysAtMost(rows[1..], key, bound) && key(rows[0]) <= bound
  {
    assert rows[0] in rows;
    forall x | x in rows[1..] ensures key(x) <= bound {
      TailMembers(rows, key, x);
    }
  }

  /** The membership contracts above determine a table completely: two
      tables in rowid order with the same rows are the same sequence. */
  lemma {:induction false} AscendingUnique<T>(a: seq<T>, b: seq<T>, key: T -> int)
    requires Ascending(a, key) && Ascending(b, key)
    requires forall x :: x in a <==> x in b
    ensures a == b
  {
    if a != [] { assert a[0] in a; }
    if b != [] { assert b[0] in b; }
    if a != [] && b != [] {
      var i :| 0 <= i < |b| && b[i] == a[0];
      var j :| 0 <= j < |a| && a[j] == b[0];
      assert key(b[i]) == key(a[0]) && key(a[j]) == key(b[0]);
      assert i == 0 && j == 0;
      forall x ensures x in a[1..] <==> x in b[1..] {
        TailMembers(a, key, x);
        TailMembers(b, key, x);
      }
      AscendingUnique(a[1..], b[1..], key);
      assert a == [a[0]] + a[1..] && b == [b[0]] + b[1..];
    }
  }

  lemma TailMembers<T>(s: seq<T>, key: T -> int, x: T)
    requires Ascending(s, key) && s != []
    ensures x in s[1..] <==> x in s && key(x) > key(s[0])
  {
    if x in s && key(x) > key(s[0]) {
      var j :| 0 <= j < |s| && s[j] == x;
      assert s[1..][j - 1] == x;
    }
    if x in s[1..] {
      var j :| 0 <= j < |s[1..]| && s[1..][j] == x;
      assert s[j + 1] == x;
    }
  }

  /** A subsequence of a table in rowid order is in rowid order too. */
  lemma {:induction false} SubsequenceAscending<T>(a: seq<T>, b: seq<T>, key: T -> int)
    requires Lists.IsSubsequence(a, b) && Ascending(b, key)
    ensures Ascending(a, key)
    decreases |b|
  {
    if a != [] {
      assert Ascending(b[1..], key);
      if Lists.IsSubsequence(a, b[1..]) {
        SubsequenceAscending(a, b[1..], key);
      } else {
        SubsequenceAscending(a[1..], b[1..], key);
        forall y | y in a[1..] ensures key(a[0]) < key(y) {
          Lists.SubsequenceMembers(a[1..], b[1..], y);
          TailMembers(b, key, y);
        }
        PrependAscending(a[0], a[1..], key);
        assert a == [a[0]] + a[1..];
      }
    }
  }
}

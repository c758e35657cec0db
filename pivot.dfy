/**
  The rows of a pivot (join) table as seen from one side of a many-to-many
  relation: the keys of the other side, one per row, in insertion order.
  `attach` inserts a row every time it is called, even when an equal row is
  already there; `detach` deletes every row that holds the key.
 */
module Pivot {

  /** Inserts one row for `x`; rows already present are kept as they are. */
  function Attach<T(==)>(rows: seq<T>, x: T): (r: seq<T>)
    ensures |r| == |rows| + 1
    ensures x in r
    ensures multiset(r) == multiset(rows) + multiset{x}
  {
    rows + [x]
  }

  /** Deletes every row for `x`; the rows for every other key are kept. */
  function Detach<T(==)>(rows: seq<T>, x: T): (r: seq<T>)
    ensures x !in r
    ensures multiset(r) == multiset(rows)[x := 0]
    ensures |r| == |rows| - multiset(rows)[x]
    decreases |rows|
  {
    if |rows| == 0 then []
    else
      assert rows == [rows[0]] + rows[1..];
      if rows[0] == x then Detach(rows[1..], x)
      else [rows[0]] + Detach(rows[1..], x)
  }

  /** Detaching a key that has no row changes nothing. */
  lemma {:induction false} DetachAbsent<T>(rows: seq<T>, x: T)
    requires x !in rows
    ensures Detach(rows, x) == rows
    decreases |rows|
  {
    if |rows| > 0 {
      DetachAbsent(rows[1..], x);
      assert rows == [rows[0]] + rows[1..];
    }
  }

  /** Detaching twice is the same as detaching once. */
  lemma DetachIdempotent<T>(rows: seq<T>, x: T)
    ensures Detach(Detach(rows, x), x) == Detach(rows, x)
  {
    DetachAbsent(Detach(rows, x), x);
  }

  /** Detaching after any number of attaches removes them all: detach undoes attach. */
  lemma {:induction false} DetachAttach<T>(rows: seq<T>, x: T)
    ensures Detach(Attach(rows, x), x) == Detach(rows, x)
    decreases |rows|
  {
    if |rows| == 0 {
      assert Attach(rows, x) == [x];
      assert Detach([x], x) == Detach([x][1..], x);
    } else {
      DetachAttach(rows[1..], x);
      assert Attach(rows, x)[1..] == Attach(rows[1..], x);
    }
  }

  /** Detaching one key does not disturb a row just attached for another key. */
  lemma {:induction false} DetachAttachOther<T>(rows: seq<T>, x: T, y: T)
    requires x != y
    ensures Detach(Attach(rows, y), x) == Attach(Detach(rows, x), y)
    decreases |rows|
  {
    if |rows| == 0 {
      assert Attach(rows, y) == [y];
      assert Detach([y], x) == [y] + Detach([y][1..], x);
    } else {
      var rest := rows[1..];
      DetachAttachOther(rest, x, y);
      var attached := Attach(rows, y);
      assert attached[0] == rows[0] && attached[1..] == Attach(rest, y);
      if rows[0] == x {
        assert Detach(attached, x) == Detach(Attach(rest, y), x);
      } else {
        assert Detach(attached, x) == [rows[0]] + Detach(Attach(rest, y), x);
        assert Detach(rows, x) == [rows[0]] + Detach(rest, x);
        assert [rows[0]] + Attach(Detach(rest, x), y) == Attach([rows[0]] + Detach(rest, x), y);
      }
    }
  }

  /** Detaching two keys gives the same rows in either order. */
  lemma {:induction false} DetachCommutes<T>(rows: seq<T>, x: T, y: T)
    ensures Detach(Detach(rows, x), y) == Detach(Detach(rows, y), x)
    decreases |rows|
  {
    if |rows| > 0 {
      DetachCommutes(rows[1..], x, y);
      var rest := rows[1..];
      if rows[0] != x && rows[0] != y {
        assert Detach(rows, x) == [rows[0]] + Detach(rest, x);
        assert Detach(rows, y) == [rows[0]] + Detach(rest, y);
        assert ([rows[0]] + Detach(rest, x))[1..] == Detach(rest, x);
        assert ([rows[0]] + Detach(rest, y))[1..] == Detach(rest, y);
      } else if rows[0] == x && rows[0] != y {
        assert Detach(rows, y) == [rows[0]] + Detach(rest, y);
        assert ([rows[0]] + Detach(rest, y))[1..] == Detach(rest, y);
      } else if rows[0] != x && rows[0] == y {
        assert Detach(rows, x) == [rows[0]] + Detach(rest, x);
        assert ([rows[0]] + Detach(rest, x))[1..] == Detach(rest, x);
      }
    }
  }
}

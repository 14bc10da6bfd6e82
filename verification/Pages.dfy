/** ORDER BY ... LIMIT: the first rows of a set in a given order. */
module Pages {

  /** Total and transitive. */
  ghost predicate IsOrder<T(!new)>(le: (T, T) -> bool) {
    && (forall a, b :: le(a, b) || le(b, a))
    && forall a, b, c :: le(a, b) && le(b, c) ==> le(a, c)
  }

  predicate Ordered<T>(rows: seq<T>, le: (T, T) -> bool) {
    forall i, j | 0 <= i < j < |rows| :: le(rows[i], rows[j])
  }

  predicate Distinct<T(==)>(rows: seq<T>) {
    forall i, j | 0 <= i < j < |rows| :: rows[i] != rows[j]
  }

  /** Distinct rows of the set in order, no more than the limit; a row is left out only for lack of
      room, and then comes after every row of the page. */
  ghost predicate IsPage<T(!new)>(page: seq<T>, all: set<T>, le: (T, T) -> bool, limit: nat) {
    && (forall x | x in page :: x in all)
    && Distinct(page) && Ordered(page, le) && |page| <= limit
    && forall x | x in all && x !in page :: |page| == limit && forall y | y in page :: le(y, x)
  }

  method Insert<T(==, !new)>(rows: seq<T>, x: T, le: (T, T) -> bool) returns (rows': seq<T>)
    requires IsOrder(le) && Ordered(rows, le) && Distinct(rows) && x !in rows
    ensures Ordered(rows', le) && Distinct(rows')
    ensures forall y :: y in rows' <==> y in rows || y == x
  {
    var i := 0;
    while i < |rows| && le(rows[i], x)
      invariant 0 <= i <= |rows|
      invariant forall j | 0 <= j < i :: le(rows[j], x)
    {
      i := i + 1;
    }
    rows' := rows[..i] + [x] + rows[i..];
  }

  method FirstPage<T(==, !new)>(all: set<T>, le: (T, T) -> bool, limit: nat) returns (page: seq<T>)
    requires IsOrder(le)
    ensures IsPage(page, all, le, limit)
  {
    var rows: seq<T> := [];
    var todo := all;
    while todo != {}
      invariant todo <= all && Ordered(rows, le) && Distinct(rows)
      invariant forall y :: y in rows <==> y in all && y !in todo
      decreases todo
    {
      var x :| x in todo;
      rows := Insert(rows, x, le);
      todo := todo - {x};
    }
    page := if |rows| <= limit then rows else rows[..limit];
    forall x | x in all && x !in page
      ensures |page| == limit && forall y | y in page :: le(y, x)
    {
      var k :| 0 <= k < |rows| && rows[k] == x;
      assert page == rows[..limit] && k >= limit;
    }
  }

  /** Text in code point order. */
  predicate TextLe(a: string, b: string) {
    a == "" || (b != "" && (a[0] < b[0] || (a[0] == b[0] && TextLe(a[1..], b[1..]))))
  }

  lemma {:induction false} TextLeIsTotal(a: string, b: string)
    ensures TextLe(a, b) || TextLe(b, a)
  {
    if a != "" && b != "" {
      TextLeIsTotal(a[1..], b[1..]);
    }
  }

  lemma {:induction false} TextLeIsTransitive(a: string, b: string, c: string)
    requires TextLe(a, b) && TextLe(b, c)
    ensures TextLe(a, c)
  {
    if a != "" {
      if a[0] == b[0] == c[0] {
        TextLeIsTransitive(a[1..], b[1..], c[1..]);
      }
    }
  }
}

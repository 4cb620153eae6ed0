/**
  The skip/limit listing shared by the category and product services:
  `find().skip((page - 1) * limit).limit(limit)` over a collection kept in
  insertion order, together with `countDocuments()`.
*/
module Pagination {

  function Min(a: int, b: int): int
  {
    if a <= b then a else b
  }

  /** How many records `skip` passes over for a page. */
  function Offset(page: nat, limit: nat): nat
    requires page >= 1
  {
    (page - 1) * limit
  }

  /**
    The records of one page: those starting at the page's offset, at most
    `limit` of them, in table order; past the end of the table the page is empty.
  */
  function Paginate<T>(table: seq<T>, page: nat, limit: nat): (r: seq<T>)
    requires page >= 1 && limit >= 1
    ensures |r| == Min(limit, |table| - Min(Offset(page, limit), |table|))
    ensures forall i | 0 <= i < |r| :: r[i] == table[Offset(page, limit) + i]
  {
    var start := Min(Offset(page, limit), |table|);
    table[start..Min(start + limit, |table|)]
  }

  /** Pages 1 to `n`, concatenated: what a client that walks the listing receives. */
  function Pages<T>(table: seq<T>, limit: nat, n: nat): seq<T>
    requires limit >= 1
  {
    if n == 0 then [] else Pages(table, limit, n - 1) + Paginate(table, n, limit)
  }

  /** Walking pages 1 to `n` yields exactly the first `n * limit` records, in order. */
  lemma {:induction false} PagesArePrefix<T>(table: seq<T>, limit: nat, n: nat)
    requires limit >= 1
    ensures Pages(table, limit, n) == table[..Min(n * limit, |table|)]
  {
    if n > 0 {
      PagesArePrefix(table, limit, n - 1);
      var before := Min((n - 1) * limit, |table|);
      var after := Min(n * limit, |table|);
      assert Offset(n, limit) == (n - 1) * limit;
      assert n * limit == (n - 1) * limit + limit;
      var page := Paginate(table, n, limit);
      assert |page| == after - before;
      assert table[..after] == table[..before] + page by {
        forall i | 0 <= i < after
          ensures table[..after][i] == (table[..before] + page)[i]
        {
          if i >= before {
            assert page[i - before] == table[Offset(n, limit) + (i - before)];
          }
        }
      }
    }
  }

  /** Once the pages reach past the end of the table, every record was listed exactly once. */
  lemma PagesCoverTable<T>(table: seq<T>, limit: nat, n: nat)
    requires limit >= 1
    requires n * limit >= |table|
    ensures Pages(table, limit, n) == table
  {
    PagesArePrefix(table, limit, n);
  }
}

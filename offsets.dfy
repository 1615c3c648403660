/**
 * Pagination offsets: store.go's calculateOffset, which multiplies
 * without clamping, and pkg/db/offset.go's CalculateOffset, which turns a
 * negative product positive.
 */
module LegacyStore {

  /** calculateOffset: (page - 1) * limit, used as the SQL OFFSET of GetTodosByUserID. */
  function CalculateOffset(page: int, limit: int): int {
    (page - 1) * limit
  }

  /** The first page starts at row 0. */
  lemma FirstPageStartsAtZero(limit: int)
    ensures CalculateOffset(1, limit) == 0
  {
  }

  /** No clamping: page 0 with a positive limit is the negative offset -limit. */
  lemma PageZeroIsNegative(limit: int)
    requires limit > 0
    ensures CalculateOffset(0, limit) == -limit
    ensures CalculateOffset(0, limit) < 0
  {
  }

  /** Step by one page: the offset grows by exactly `limit`. */
  lemma NextPageAddsLimit(page: int, limit: int)
    ensures CalculateOffset(page + 1, limit) == CalculateOffset(page, limit) + limit
  {
  }

  /** For a positive limit the offset is strictly increasing in the page. */
  lemma {:induction false} OffsetStrictlyIncreasing(p1: int, p2: int, limit: int)
    requires limit > 0 && p1 < p2
    ensures CalculateOffset(p1, limit) < CalculateOffset(p2, limit)
    decreases p2 - p1
  {
    NextPageAddsLimit(p1, limit);
    if p1 + 1 < p2 {
      OffsetStrictlyIncreasing(p1 + 1, p2, limit);
    }
  }
}

module DbOffset {
  import LegacyStore

  function Abs(x: int): (r: int)
    ensures r >= 0 && (r == x || r == -x)
  {
    if x < 0 then -x else x
  }

  /** CalculateOffset: (page - 1) * pageSize, negated when negative. */
  function CalculateOffset(page: int, pageSize: int): (r: int)
    ensures r >= 0
    ensures r == Abs((page - 1) * pageSize)
  {
    var offset := (page - 1) * pageSize;
    if offset < 0 then offset * -1 else offset
  }

  lemma FirstPageStartsAtZero(pageSize: int)
    ensures CalculateOffset(1, pageSize) == 0
  {
  }

  /** For pages from 1 on and a non-negative size there is no sign flip: it is store.go's offset. */
  lemma NoFlipFromPageOne(page: int, pageSize: int)
    requires page >= 1 && pageSize >= 0
    ensures CalculateOffset(page, pageSize) == (page - 1) * pageSize
    ensures CalculateOffset(page, pageSize) == LegacyStore.CalculateOffset(page, pageSize)
  {
    assert (page - 1) * pageSize >= 0;
  }

  /** The sign flip makes page 0 an alias of page 2. */
  lemma PageZeroIsPageTwo(pageSize: int)
    requires pageSize >= 0
    ensures CalculateOffset(0, pageSize) == CalculateOffset(2, pageSize) == pageSize
  {
  }

  /** In general the two offsets agree up to sign. */
  lemma AgreesWithStoreUpToSign(page: int, pageSize: int)
    ensures CalculateOffset(page, pageSize) == Abs(LegacyStore.CalculateOffset(page, pageSize))
    ensures LegacyStore.CalculateOffset(page, pageSize) < 0 ==>
              CalculateOffset(page, pageSize) == -LegacyStore.CalculateOffset(page, pageSize)
  {
  }
}

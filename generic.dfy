/**
 * The pagination helper. The source computes in Go's int64, so `page + 1` and
 * `page - 1` wrap around at the ends of the range. `MakePaginationAsWritten`
 * keeps that wrap-around; `MakePagination` is the evidently intended helper
 * on mathematical integers.
 */
module Generic {
  import opened Wrappers

  const MinInt64: int := -0x8000_0000_0000_0000
  const MaxInt64: int := 0x7FFF_FFFF_FFFF_FFFF

  predicate IsInt64(x: int) { MinInt64 <= x <= MaxInt64 }

  /** Two's-complement wrap-around of an integer into the int64 range. */
  function Wrap64(x: int): (r: int)
    ensures IsInt64(r)
    ensures IsInt64(x) ==> r == x
    ensures (r - x) % 0x1_0000_0000_0000_0000 == 0
  {
    (x - MinInt64) % 0x1_0000_0000_0000_0000 + MinInt64
  }

  /** The pair (next page, previous page) the helper returns. */
  datatype Pages = Pages(next: int, previous: Option<int>)

  /** The helper as written: both neighbours computed with int64 wrap-around. */
  function MakePaginationAsWritten(page: int): (r: Pages)
    requires IsInt64(page)
    ensures IsInt64(r.next)
    ensures r.previous.Some? ==> 0 <= r.previous.value
  {
    var previous := Wrap64(page - 1);
    Pages(Wrap64(page + 1), if previous < 0 then None else Some(previous))
  }

  /**
   * The helper on mathematical integers: the next page follows the current
   * one and the previous page exists only when it is not negative.
   */
  function MakePagination(page: int): (r: Pages)
    requires MinInt64 <= page < MaxInt64
    ensures r.next == page + 1 && IsInt64(r.next)
    ensures r.previous.None? <==> page <= 0
    ensures r.previous.Some? ==> r.previous.value == page - 1 && 0 <= r.previous.value
  {
    var previous := page - 1;
    Pages(page + 1, if previous < 0 then None else Some(previous))
  }

  /** When both neighbours exist they are two pages apart. */
  lemma NeighboursTwoApart(page: int)
    requires MinInt64 <= page < MaxInt64
    requires MakePagination(page).previous.Some?
    ensures MakePagination(page).next - MakePagination(page).previous.value == 2
  {
  }

  /** Two worked examples. */
  lemma PaginationScenarios()
    ensures MakePagination(0) == Pages(1, None)
    ensures MakePagination(5) == Pages(6, Some(4))
  {
  }

  /** Away from both ends of the int64 range the code as written is the intended helper. */
  lemma AsWrittenAgreesInside(page: int)
    requires MinInt64 < page < MaxInt64
    ensures MakePaginationAsWritten(page) == MakePagination(page)
  {
  }

  /**
   * At the lowest int64 page, `page - 1` wraps to the largest int64, which is
   * not negative, so the code as written reports a previous page.
   */
  lemma AsWrittenWrapsAtMinimum()
    ensures MakePaginationAsWritten(MinInt64).previous == Some(MaxInt64)
    ensures MakePagination(MinInt64).previous == None
  {
  }

  /** At the largest int64 page the next page wraps to the lowest int64. */
  lemma AsWrittenWrapsAtMaximum()
    ensures MakePaginationAsWritten(MaxInt64).next == MinInt64
  {
  }
}

/**
 * Page bounds for game searches (`Pagination` in src/types.rs): a limit and
 * an offset, both `u32`, and the clamping applied before a search runs.
 */
module Paging {
  import opened Text

  datatype Pagination = Pagination(limit: U32, offset: U32)

  const DEFAULT_LIMIT: U32 := 50
  const MAX_LIMIT: U32 := 500

  /** `Pagination::default()` */
  function Default(): (p: Pagination)
    ensures p.limit == DEFAULT_LIMIT && p.offset == 0
  {
    Pagination(DEFAULT_LIMIT, 0)
  }

  /** `Pagination::normalized`: a zero limit becomes the default, any other limit is capped at 500. */
  function Normalized(page: Pagination): (r: Pagination)
    ensures 1 <= r.limit <= MAX_LIMIT
    ensures r.offset == page.offset
    ensures page.limit == 0 ==> r.limit == DEFAULT_LIMIT
    ensures page.limit != 0 ==> r.limit == if page.limit < MAX_LIMIT then page.limit else MAX_LIMIT
  {
    var limit := if page.limit == 0 then Default().limit
      else if page.limit < MAX_LIMIT then page.limit else MAX_LIMIT;
    Pagination(limit, page.offset)
  }

  /** A page whose limit is already in [1, 500] is left as it is. */
  lemma NormalizedKeepsValid(page: Pagination)
    requires 1 <= page.limit <= MAX_LIMIT
    ensures Normalized(page) == page
  {
  }

  /** Normalising twice is normalising once. */
  lemma NormalizedIdempotent(page: Pagination)
    ensures Normalized(Normalized(page)) == Normalized(page)
  {
    NormalizedKeepsValid(Normalized(page));
  }

  /** The default page is already normal. */
  lemma DefaultIsNormal()
    ensures Normalized(Default()) == Default()
  {
  }
}

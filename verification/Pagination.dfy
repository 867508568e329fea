/** Page arithmetic (pkg/pagination) in the 64-bit integers it is written in. */
module Pagination {
  const MAX := 0x7FFF_FFFF_FFFF_FFFF
  const MODULUS := 0x1_0000_0000_0000_0000

  type Int64 = x: int | -MAX - 1 <= x <= MAX

  /** What 64-bit arithmetic makes of an exact result. */
  function Wrap(x: int): Int64 {
    (x + MAX + 1) % MODULUS - MAX - 1
  }

  /** Division that truncates toward zero. */
  function Quotient(a: int, b: int): int
    requires b > 0
  {
    if a >= 0 then a / b else -(-a / b)
  }

  const DEFAULT_PAGE: Int64 := 1
  const DEFAULT_LIMIT: Int64 := 10
  const MAX_LIMIT: Int64 := 100

  datatype Params = Params(page: Int64, limit: Int64)
  datatype Meta = Meta(page: Int64, limit: Int64, total: Int64, totalPages: Int64)

  function NewParams(page: Int64, limit: Int64): Params {
    var p := if page < 1 then DEFAULT_PAGE else page;
    var l := if limit < 1 then DEFAULT_LIMIT else limit;
    Params(p, if l > MAX_LIMIT then MAX_LIMIT else l)
  }

  function Offset(p: Params): Int64 {
    Wrap(Wrap(p.page - 1) * p.limit)
  }

  function NewMeta(p: Params, total: Int64): Meta {
    var totalPages := if p.limit > 0 then Wrap(Quotient(Wrap(Wrap(total + p.limit) - 1), p.limit)) else 0;
    Meta(p.page, p.limit, total, totalPages)
  }

  /** The parameters NewParams can return. */
  predicate Clamped(p: Params) {
    p.page >= 1 && 1 <= p.limit <= MAX_LIMIT
  }

  /** NewParams returns parameters it would leave alone, and leaves alone exactly those. */
  lemma ClampedAreTheFixpoints(page: Int64, limit: Int64)
    ensures Clamped(NewParams(page, limit))
    ensures NewParams(page, limit) == Params(page, limit) <==> Clamped(Params(page, limit))
  {
  }

  lemma WrapExact(x: int)
    ensures Wrap(x) == x <==> -MAX - 1 <= x <= MAX
  {
  }

  lemma TimesMonotone(a: int, b: int, k: int)
    requires a <= b && k >= 0
    ensures a * k <= b * k
  {
    assert (b - a) * k >= 0;
  }

  lemma DivisionBound(a: int, b: int, m: int)
    requires b > 0
    ensures a <= m / b <==> a * b <= m
  {
    if a <= m / b {
      TimesMonotone(a, m / b, b);
    } else {
      TimesMonotone(m / b + 1, a, b);
    }
  }

  /** The offset is the exact one for as many pages as fit in a 64-bit offset, and no further. */
  lemma OffsetIsExact(p: Params)
    requires Clamped(p)
    ensures Offset(p) == (p.page - 1) * p.limit <==> p.page - 1 <= MAX / p.limit
  {
    hide Wrap;
    var before: int := p.page - 1;
    TimesMonotone(0, before, p.limit);
    WrapExact(before);
    WrapExact(before * p.limit);
    DivisionBound(before, p.limit, MAX);
  }

  /** n pages hold total rows. */
  predicate Holds(n: int, limit: int, total: int) {
    n * limit >= total
  }

  /** n is the least number of pages that hold total rows. */
  ghost predicate FewestPages(n: int, limit: int, total: int) {
    n >= 0 && Holds(n, limit, total) && forall m :: 0 <= m < n ==> !Holds(m, limit, total)
  }

  lemma CeilingIsFewest(limit: int, total: int)
    requires limit > 0 && total >= 0
    ensures FewestPages((total + limit - 1) / limit, limit, total)
  {
    var n := (total + limit - 1) / limit;
    DivisionBound(n, limit, total + limit - 1);
    DivisionBound(n + 1, limit, total + limit - 1);
    assert (n + 1) * limit == n * limit + limit;
    forall m | 0 <= m < n ensures !Holds(m, limit, total) {
      DivisionBound(m + 1, limit, total + limit - 1);
      assert (m + 1) * limit == m * limit + limit;
      assert (m + 1) * limit <= n * limit;
    }
  }

  lemma SumUnderDivision(total: Int64, limit: Int64)
    requires total >= 0 && 1 <= limit <= MAX_LIMIT
    ensures var sum := total + limit - 1;
            Wrap(Wrap(total + limit) - 1) == if sum <= MAX then sum else sum - MODULUS
  {
  }

  lemma TimesGrows(q: int, m: int, b: int)
    requires q >= 0 && b > 0 && q * b <= m
    ensures q <= m
  {
    assert q * (b - 1) >= 0;
    assert q * b == q * (b - 1) + q;
  }

  lemma PartIsNoMore(m: int, b: int)
    requires m >= 0 && b > 0
    ensures 0 <= m / b <= m
  {
    var q := m / b;
    assert q >= 0;
    DivisionBound(q, b, m);
    TimesGrows(q, m, b);
  }

  lemma QuotientRange(a: int, b: int)
    requires -MAX - 1 <= a <= MAX && b > 0
    ensures if a >= 0 then 0 <= Quotient(a, b) <= a else a <= Quotient(a, b) <= 0
    ensures Wrap(Quotient(a, b)) == Quotient(a, b)
  {
    hide Wrap;
    PartIsNoMore(if a >= 0 then a else -a, b);
    WrapExact(Quotient(a, b));
  }

  lemma NoneHoldsNothing(n: int, limit: int, total: int)
    requires n <= 0 && limit >= 1 && total > 0
    ensures !FewestPages(n, limit, total)
  {
    assert n * limit <= 0;
  }

  /** TotalPages is the least number of pages that hold all rows, for every total for which the
      sum under the division fits in 64 bits, and for no other. */
  lemma TotalPagesIsFewest(p: Params, total: Int64)
    requires Clamped(p) && total >= 0
    ensures FewestPages(NewMeta(p, total).totalPages, p.limit, total) <==> total <= MAX - p.limit + 1
    ensures total <= MAX - p.limit + 1 ==> NewMeta(p, total).totalPages == (total + p.limit - 1) / p.limit
  {
    hide Wrap, FewestPages;
    var sum := total + p.limit - 1;
    SumUnderDivision(total, p.limit);
    if total <= MAX - p.limit + 1 {
      QuotientRange(sum, p.limit);
      CeilingIsFewest(p.limit, total);
    } else {
      QuotientRange(sum - MODULUS, p.limit);
      NoneHoldsNothing(NewMeta(p, total).totalPages, p.limit, total);
    }
  }

  /** Without a limit there are no pages; page, limit and total are passed on as they are. */
  lemma MetaPassesOn(p: Params, total: Int64)
    ensures p.limit <= 0 ==> NewMeta(p, total) == Meta(p.page, p.limit, total, 0)
    ensures NewMeta(p, total).page == p.page && NewMeta(p, total).limit == p.limit && NewMeta(p, total).total == total
  {
  }

  // ----- The pages of a list -----

  /** OFFSET and LIMIT, on rows in a fixed order. An offset that is not positive is left out of
      the statement. */
  function Fetch<Row>(rows: seq<Row>, offset: int, limit: nat): seq<Row> {
    var start := if offset <= 0 then 0 else if offset <= |rows| then offset else |rows|;
    rows[start..if start + limit <= |rows| then start + limit else |rows|]
  }

  /** The n-th page of `limit` rows: those at positions from (n - 1) * limit up to n * limit. */
  function Page<Row>(rows: seq<Row>, n: int, limit: int): seq<Row>
    requires n >= 1 && limit >= 1
  {
    var start := (n - 1) * limit;
    if start >= |rows| then [] else rows[start..if start + limit <= |rows| then start + limit else |rows|]
  }

  lemma FetchIsPage<Row>(rows: seq<Row>, p: Params)
    requires Clamped(p) && p.page - 1 <= MAX / p.limit
    ensures Fetch(rows, Offset(p), p.limit) == Page(rows, p.page, p.limit)
  {
    OffsetIsExact(p);
  }

  /** The wrapped offset always lands on a row of some list that has no such page. */
  lemma WrappedOffsetHitsRows(p: Params) returns (rows: seq<int>)
    requires Clamped(p) && p.page - 1 > MAX / p.limit
    ensures |rows| <= MAX + 1
    ensures Fetch(rows, Offset(p), p.limit) != Page(rows, p.page, p.limit)
  {
    DivisionBound(p.page - 1, p.limit, MAX);
    assert (p.page - 1) * p.limit > MAX;
    var at := if Offset(p) <= 0 then 0 else Offset(p);
    rows := seq(at + 1, i => i);
    assert Page(rows, p.page, p.limit) == [];
    assert Fetch(rows, Offset(p), p.limit)[0] == at;
  }

  ghost predicate FetchesItsPage(p: Params)
    requires Clamped(p)
  {
    forall rows: seq<int> :: Fetch(rows, Offset(p), p.limit) == Page(rows, p.page, p.limit)
  }

  /** What is fetched is the page asked for, whatever the list, exactly when the offset fits in 64
      bits. Past that point requests come back with rows of earlier pages: NewParams bounds the
      limit and not the page. */
  lemma FetchedPageIsTheOneAskedFor(p: Params)
    requires Clamped(p)
    ensures FetchesItsPage(p) <==> p.page - 1 <= MAX / p.limit
  {
    if p.page - 1 <= MAX / p.limit {
      forall rows: seq<int> ensures Fetch(rows, Offset(p), p.limit) == Page(rows, p.page, p.limit) {
        FetchIsPage(rows, p);
      }
    } else {
      var rows := WrappedOffsetHitsRows(p);
    }
  }

  function FirstPages<Row>(rows: seq<Row>, n: nat, limit: int): seq<Row>
    requires limit >= 1
  {
    if n == 0 then [] else FirstPages(rows, n - 1, limit) + Page(rows, n, limit)
  }

  lemma {:induction false} FirstPagesArePrefix<Row>(rows: seq<Row>, n: nat, limit: int)
    requires limit >= 1
    ensures FirstPages(rows, n, limit) == if Holds(n, limit, |rows|) then rows else rows[..n * limit]
  {
    if n > 0 {
      FirstPagesArePrefix(rows, n - 1, limit);
      assert n * limit == (n - 1) * limit + limit;
    } else if |rows| == 0 {
      assert rows == [];
    }
  }
}

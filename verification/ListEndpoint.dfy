/** The list endpoint of a repository: GetAll of services/user and services/notification. */
module ListEndpoint {
  import opened Clauses
  import opened Counting
  import opened Pagination
  import Q = Query

  /** The rows that satisfy every clause, in the order of the table. */
  function Selected<Row>(rows: seq<Row>, where: seq<Clause>, holds: (Clause, Row) -> bool): seq<Row> {
    if rows == [] then []
    else
      var last := rows[|rows| - 1];
      Selected(rows[..|rows| - 1], where, holds)
      + if forall c :: c in where ==> holds(c, last) then [last] else []
  }

  /** Does a row pass every filter of a request? */
  ghost function Passes<Row>(filters: seq<Q.Filter>, holds: (Clause, Row) -> bool): Row -> bool {
    (row: Row) =>
      forall i :: 0 <= i < |filters| ==>
        if filters[i].isPartial then holds(ILike(filters[i].column, "%" + filters[i].value + "%"), row)
        else holds(Equals(filters[i].column, filters[i].value), row)
  }

  ghost predicate Meets<Row>(where: seq<Clause>, holds: (Clause, Row) -> bool, row: Row) {
    forall c :: c in where ==> holds(c, row)
  }

  lemma PassesMeansMeets<Row>(filters: seq<Q.Filter>, holds: (Clause, Row) -> bool, row: Row)
    ensures Passes(filters, holds)(row) <==> Meets(ClausesOf(filters), holds, row)
  {
    ClausesAt(filters);
    if Passes(filters, holds)(row) {
      forall c | c in ClausesOf(filters) ensures holds(c, row) {
        var i :| 0 <= i < |filters| && ClausesOf(filters)[i] == c;
      }
    } else {
      var i :| 0 <= i < |filters|
               && !(if filters[i].isPartial then holds(ILike(filters[i].column, "%" + filters[i].value + "%"), row)
                                       else holds(Equals(filters[i].column, filters[i].value), row));
      assert ClausesOf(filters)[i] in ClausesOf(filters) && !holds(ClausesOf(filters)[i], row);
    }
  }

  lemma SelectedSnoc<Row>(rows: seq<Row>, where: seq<Clause>, holds: (Clause, Row) -> bool)
    requires rows != []
    ensures var n := |rows| - 1;
            Selected(rows, where, holds)
              == Selected(rows[..n], where, holds) + if Meets(where, holds, rows[n]) then [rows[n]] else []
  {
  }

  /** The selection is a filter: `at` names, in increasing order, the position in the table of
      each selected row, which meets every clause, and no other row meets them all. */
  lemma {:induction false} SelectedIsFilter<Row>(rows: seq<Row>, where: seq<Clause>, holds: (Clause, Row) -> bool)
      returns (at: seq<nat>)
    ensures |at| == |Selected(rows, where, holds)|
    ensures forall i :: 0 <= i < |at| ==>
              at[i] < |rows| && Selected(rows, where, holds)[i] == rows[at[i]] && Meets(where, holds, rows[at[i]])
    ensures forall i, j :: 0 <= i < j < |at| ==> at[i] < at[j]
    ensures forall k :: 0 <= k < |rows| && k !in at ==> !Meets(where, holds, rows[k])
  {
    if rows == [] {
      at := [];
    } else {
      hide Selected, Meets;
      var n := |rows| - 1;
      SelectedSnoc(rows, where, holds);
      at := SelectedIsFilter(rows[..n], where, holds);
      if Meets(where, holds, rows[n]) {
        at := at + [n];
        assert n in at;
      }
    }
  }

  lemma {:induction false} SelectedCounts<Row>(
      rows: seq<Row>, filters: seq<Q.Filter>, holds: (Clause, Row) -> bool)
    ensures |Selected(rows, ClausesOf(filters), holds)| == Count(rows, Passes(filters, holds))
    ensures forall row :: row in Selected(rows, ClausesOf(filters), holds) <==> row in rows && Passes(filters, holds)(row)
  {
    hide Passes, ClausesOf;
    if rows != [] {
      var n := |rows| - 1;
      SelectedCounts(rows[..n], filters, holds);
      PassesMeansMeets(filters, holds, rows[n]);
      assert rows == rows[..n] + [rows[n]];
    }
  }

  /** Multiplicities are the table's. */
  lemma {:induction false} SelectedKeepsCopies<Row>(
      rows: seq<Row>, filters: seq<Q.Filter>, holds: (Clause, Row) -> bool, row: Row)
    ensures multiset(Selected(rows, ClausesOf(filters), holds))[row]
         == if Passes(filters, holds)(row) then multiset(rows)[row] else 0
  {
    hide Passes, ClausesOf;
    if rows != [] {
      var n := |rows| - 1;
      SelectedKeepsCopies(rows[..n], filters, holds, row);
      PassesMeansMeets(filters, holds, rows[n]);
      assert rows == rows[..n] + [rows[n]];
    }
  }

  /** Without filters everything is selected. */
  lemma {:induction false} NoFilterSelectsAll<Row>(rows: seq<Row>, holds: (Clause, Row) -> bool)
    ensures Selected(rows, ClausesOf([]), holds) == rows
  {
    if rows != [] {
      NoFilterSelectsAll(rows[..|rows| - 1], holds);
      assert rows == rows[..|rows| - 1] + [rows[|rows| - 1]];
    }
  }

  /** Putting rows in order neither adds nor drops any. */
  ghost predicate Reorders<Row(!new)>(arrange: (seq<string>, seq<Row>) -> seq<Row>) {
    forall items, rows :: multiset(arrange(items, rows)) == multiset(rows)
  }

  lemma FetchedRowsPass<Row(!new)>(
      rows: seq<Row>, opts: Q.Options, holds: (Clause, Row) -> bool,
      arrange: (seq<string>, seq<Row>) -> seq<Row>, offset: int, limit: nat)
    requires Reorders(arrange)
    ensures var all := arrange(ItemsOf(opts.sorts), Selected(rows, ClausesOf(opts.filters), holds));
            forall row :: row in Fetch(all, offset, limit) ==> row in rows && Passes(opts.filters, holds)(row)
  {
    var selected := Selected(rows, ClausesOf(opts.filters), holds);
    var all := arrange(ItemsOf(opts.sorts), selected);
    SelectedCounts(rows, opts.filters, holds);
    hide Passes;
    assert multiset(all) == multiset(selected);
    forall row | row in Fetch(all, offset, limit) ensures row in rows && Passes(opts.filters, holds)(row) {
      assert row in all;
      assert row in multiset(all);
      assert row in selected;
    }
  }

  datatype Listing<Row> = Listing(rows: seq<Row>, total: int) | Internal

  /** A table, and how the database evaluates a clause and puts selected rows in order. */
  class Repository<Row(!new)> {
    var rows: seq<Row>
    const holds: (Clause, Row) -> bool
    const arrange: (seq<string>, seq<Row>) -> seq<Row>

    constructor (holds: (Clause, Row) -> bool, arrange: (seq<string>, seq<Row>) -> seq<Row>)
      ensures rows == [] && this.holds == holds && this.arrange == arrange
    {
      rows := [];
      this.holds := holds;
      this.arrange := arrange;
    }

    /** Counts, then fetches. The two statements are not one transaction: `meanwhile` is what the
        table holds when the second one runs. */
    method GetAll(p: Params, opts: Q.Options, countFails: bool, meanwhile: seq<Row>, fetchFails: bool)
        returns (r: Listing<Row>)
      modifies this
      ensures rows == if countFails then old(rows) else meanwhile
      ensures r.Internal? <==> countFails || fetchFails
      ensures r.Listing? ==>
                && r.total == |Selected(old(rows), ClausesOf(opts.filters), holds)|
                && r.rows == Fetch(arrange(ItemsOf(opts.sorts), Selected(meanwhile, ClausesOf(opts.filters), holds)),
                                   Offset(p), if p.limit >= 0 then p.limit else 0)
      // the total counts the rows that pass every filter; every row returned is one of the table
      // that passes them all
      ensures r.Listing? ==> r.total == Count(old(rows), Passes(opts.filters, holds))
      ensures r.Listing? && Reorders(arrange) ==>
                forall row :: row in r.rows ==> row in meanwhile && Passes(opts.filters, holds)(row)
    {
      hide Selected, Fetch, Offset, Passes, Reorders;
      if countFails {
        return Internal;
      }
      var counted := Filters(Statement([], []), opts);
      var total := |Selected(rows, counted.where, holds)|;
      SelectedCounts(rows, opts.filters, holds);
      rows := meanwhile;
      if fetchFails {
        return Internal;
      }
      var q := Filters(Statement([], []), opts);
      q := Sorts(q, opts);
      assert counted.where == ClausesOf(opts.filters) && q.orderBy == ItemsOf(opts.sorts);
      if Reorders(arrange) {
        FetchedRowsPass(meanwhile, opts, holds, arrange, Offset(p), if p.limit >= 0 then p.limit else 0);
      }
      r := Listing(Fetch(arrange(q.orderBy, Selected(rows, q.where, holds)),
                         Offset(p), if p.limit >= 0 then p.limit else 0), total);
    }
  }

  lemma {:induction false} SelectedIgnoresOrder<Row>(
      rows: seq<Row>, one: seq<Clause>, two: seq<Clause>, holds: (Clause, Row) -> bool)
    requires forall c :: c in one <==> c in two
    ensures Selected(rows, one, holds) == Selected(rows, two, holds)
  {
    if rows != [] {
      SelectedIgnoresOrder(rows[..|rows| - 1], one, two, holds);
    }
  }

  /** A list request against a table that does not change: the rows, the request's parameters,
      the resource's allowlist, and how the database evaluates clauses and orders rows. */
  datatype Source<!Row> = Source(rows: seq<Row>, values: Q.Values, schema: Q.Schema,
                                 holds: (Clause, Row) -> bool, arrange: (seq<string>, seq<Row>) -> seq<Row>)

  ghost function Chosen<Row>(src: Source<Row>, keys: seq<string>): seq<Row>
    requires Q.Enumerates(keys, src.values)
  {
    Selected(src.rows, ClausesOf(Q.Resolved(src.values, keys, src.schema).filters), src.holds)
  }

  /** The whole result, when the parameters are ranged over in the order `keys`. */
  ghost function Ordered<Row>(src: Source<Row>, keys: seq<string>): seq<Row>
    requires Q.Enumerates(keys, src.values)
  {
    src.arrange(ItemsOf(Q.Resolved(src.values, keys, src.schema).sorts), Chosen(src, keys))
  }

  /** Go's map order does not matter: whatever order each of two requests ranges over the same
      parameters in, the same rows are selected, in the same order. */
  lemma {:induction false} ResultIgnoresMapOrder<Row>(src: Source<Row>, one: seq<string>, two: seq<string>)
    requires Q.Enumerates(one, src.values) && Q.Enumerates(two, src.values)
    ensures Chosen(src, one) == Chosen(src, two) && Ordered(src, one) == Ordered(src, two)
  {
    var f1, f2 := Q.FiltersOf(one, src.values, src.schema), Q.FiltersOf(two, src.values, src.schema);
    Q.FilterOrderIsIrrelevant(one, two, src.values, src.schema);
    forall c ensures c in ClausesOf(f1) <==> c in ClausesOf(f2) {
      ClauseMembers(f1, c);
      ClauseMembers(f2, c);
    }
    SelectedIgnoresOrder(src.rows, ClausesOf(f1), ClausesOf(f2), src.holds);
  }

  /** What a request for one page returns. */
  ghost function Answer<Row>(src: Source<Row>, keys: seq<string>, page: Int64, limit: Int64): seq<Row>
    requires Q.Enumerates(keys, src.values)
  {
    var p := NewParams(page, limit);
    Fetch(Ordered(src, keys), Offset(p), p.limit)
  }

  /** The answers to requests for pages 1 to n, one after the other. Each request ranges over its
      parameters in its own order. */
  ghost function Answers<Row>(src: Source<Row>, keys: int -> seq<string>, n: Int64, limit: Int64): seq<Row>
    requires forall i :: Q.Enumerates(keys(i), src.values)
    decreases n
  {
    if n <= 0 then [] else Answers(src, keys, n - 1, limit) + Answer(src, keys(n), n, limit)
  }

  lemma AnswerIsPage<Row>(src: Source<Row>, keys: seq<string>, first: seq<string>, page: Int64, limit: Int64)
    requires Q.Enumerates(keys, src.values) && Q.Enumerates(first, src.values)
    requires 1 <= page && page - 1 <= MAX / NewParams(1, limit).limit
    ensures Answer(src, keys, page, limit) == Page(Ordered(src, first), page, NewParams(1, limit).limit)
  {
    hide Ordered, Fetch, Page, Offset, Q.Enumerates;
    ResultIgnoresMapOrder(src, keys, first);
    assert NewParams(page, limit) == Params(page, NewParams(1, limit).limit);
    FetchIsPage(Ordered(src, first), NewParams(page, limit));
  }

  lemma {:induction false} AnswersArePages<Row>(
      src: Source<Row>, keys: int -> seq<string>, first: seq<string>, n: Int64, limit: Int64)
    requires forall i :: Q.Enumerates(keys(i), src.values)
    requires Q.Enumerates(first, src.values)
    requires 0 <= n && n - 1 <= MAX / NewParams(1, limit).limit
    ensures Answers(src, keys, n, limit) == FirstPages(Ordered(src, first), n, NewParams(1, limit).limit)
    decreases n
  {
    hide Ordered, Answer, Page, Q.Enumerates;
    if n > 0 {
      AnswersArePages(src, keys, first, n - 1, limit);
      AnswerIsPage(src, keys(n), first, n, limit);
    }
  }

  lemma {:induction false} SelectedIsNoLonger<Row>(rows: seq<Row>, where: seq<Clause>, holds: (Clause, Row) -> bool)
    ensures |Selected(rows, where, holds)| <= |rows|
  {
    if rows != [] {
      SelectedIsNoLonger(rows[..|rows| - 1], where, holds);
    }
  }

  /** The number of pages the response to a request for a list of this length names. */
  function PagesOf(length: Int64, limit: Int64): Int64 {
    NewMeta(NewParams(1, limit), length).totalPages
  }

  lemma PagesHold(length: Int64, limit: Int64)
    requires 0 <= length <= MAX - MAX_LIMIT
    ensures var l, n := NewParams(1, limit).limit, PagesOf(length, limit);
            n >= 0 && Holds(n, l, length) && n - 1 <= MAX / l
  {
    hide Wrap, Quotient;
    var p := NewParams(1, limit);
    var n := PagesOf(length, limit);
    TotalPagesIsFewest(p, length);
    DivisionBound(n, p.limit, length + p.limit - 1);
    DivisionBound(n, p.limit, MAX);
  }

  lemma OrderedLength<Row(!new)>(src: Source<Row>, keys: seq<string>)
    requires Q.Enumerates(keys, src.values) && Reorders(src.arrange)
    ensures |Ordered(src, keys)| == |Chosen(src, keys)| <= |src.rows|
  {
    var opts := Q.Resolved(src.values, keys, src.schema);
    SelectedIsNoLonger(src.rows, ClausesOf(opts.filters), src.holds);
    assert multiset(src.arrange(ItemsOf(opts.sorts), Chosen(src, keys))) == multiset(Chosen(src, keys));
    assert |multiset(Ordered(src, keys))| == |multiset(Chosen(src, keys))|;
  }

  /** The pages partition the result. Ask for pages 1 to TotalPages of a table that does not
      change, however each request ranges over its parameters: together the answers are exactly
      the ordered list of the selected rows, no row missing and none twice. */
  lemma {:induction false} PagesPartitionTheResult<Row(!new)>(
      src: Source<Row>, keys: int -> seq<string>, first: seq<string>, limit: Int64)
    requires forall i :: Q.Enumerates(keys(i), src.values)
    requires Q.Enumerates(first, src.values)
    requires Reorders(src.arrange) && |src.rows| <= MAX - MAX_LIMIT
    ensures |Chosen(src, first)| <= MAX - MAX_LIMIT
    ensures Answers(src, keys, PagesOf(|Chosen(src, first)|, limit), limit) == Ordered(src, first)
  {
    hide Q.Enumerates, Answers, PagesOf, Page;
    OrderedLength(src, first);
    var n := PagesOf(|Chosen(src, first)|, limit);
    PagesHold(|Chosen(src, first)|, limit);
    AnswersArePages(src, keys, first, n, limit);
    FirstPagesArePrefix(Ordered(src, first), n, NewParams(1, limit).limit);
  }

  lemma PastTheEnd<Row>(rows: seq<Row>, n: int, page: int, limit: int)
    requires 1 <= limit && 0 <= n < page && Holds(n, limit, |rows|)
    ensures Page(rows, page, limit) == []
  {
    TimesMonotone(n, page - 1, limit);
  }

  /** A page past the last is empty, as long as its offset fits in 64 bits. */
  lemma LaterPagesAreEmpty<Row(!new)>(src: Source<Row>, keys: seq<string>, page: Int64, limit: Int64)
    requires Q.Enumerates(keys, src.values)
    requires Reorders(src.arrange) && |src.rows| <= MAX - MAX_LIMIT
    requires |Chosen(src, keys)| <= MAX - MAX_LIMIT
    requires PagesOf(|Chosen(src, keys)|, limit) < page && page - 1 <= MAX / NewParams(1, limit).limit
    ensures Answer(src, keys, page, limit) == []
  {
    hide Q.Enumerates, Ordered, Answer, PagesOf, Page, Holds;
    OrderedLength(src, keys);
    var n, l := PagesOf(|Chosen(src, keys)|, limit), NewParams(1, limit).limit;
    PagesHold(|Chosen(src, keys)|, limit);
    AnswerIsPage(src, keys, keys, page, limit);
    PastTheEnd(Ordered(src, keys), n, page, l);
  }

  // ----- What a request means -----

  /** A page number below one means the first page, a limit below one means ten rows a page, and
      a limit over a hundred means a hundred: the answer is that page of the ordered result. */
  lemma AnswerWithDefaults<Row>(src: Source<Row>, keys: seq<string>, page: Int64, limit: Int64)
    requires Q.Enumerates(keys, src.values)
    requires var n := if page < 1 then 1 else page;
             var perPage := if limit < 1 then 10 else if limit > 100 then 100 else limit;
             (n - 1) * perPage <= 9_223_372_036_854_775_807
    ensures var n := if page < 1 then 1 else page;
            var perPage := if limit < 1 then 10 else if limit > 100 then 100 else limit;
            Answer(src, keys, page, limit) == Page(Ordered(src, keys), n, perPage)
  {
    hide Q.Enumerates, Ordered, Fetch, Wrap, Page;
    var n: int := if page < 1 then 1 else page;
    var perPage: int := if limit < 1 then 10 else if limit > 100 then 100 else limit;
    assert NewParams(page, limit).page == n && NewParams(page, limit).limit == perPage;
    DivisionBound(n - 1, perPage, MAX);
    FetchIsPage(Ordered(src, keys), NewParams(page, limit));
  }

  /** The database reads a clause on the text of a column: equality, or the pattern. */
  ghost predicate ReadsClauses<Row(!new)>(holds: (Clause, Row) -> bool, text: (string, Row) -> string) {
    && (forall column, value, row :: holds(Equals(column, value), row) <==> text(column, row) == value)
    && (forall column, pattern, row :: holds(ILike(column, pattern), row) <==> Like(pattern, text(column, row)))
  }

  /** For each of these fields the row's column has the value, or contains it. */
  ghost predicate Fits<Row>(
      schema: Q.Schema, fields: seq<string>, vals: seq<string>, text: (string, Row) -> string, row: Row)
    requires |vals| == |fields|
  {
    forall i :: 0 <= i < |fields| && fields[i] in schema ==>
      var t := text(schema[fields[i]].column, row);
      if schema[fields[i]].isPartial then ContainsText(t, vals[i]) else t == vals[i]
  }

  lemma FilterFits<Row(!new)>(
      schema: Q.Schema, field: string, v: string, holds: (Clause, Row) -> bool, text: (string, Row) -> string, row: Row)
    requires field in schema && ReadsClauses(holds, text) && Plain(v)
    ensures Passes([Q.Filter(schema[field].column, v, schema[field].isPartial)], holds)(row)
            <==> var t := text(schema[field].column, row);
                 if schema[field].isPartial then ContainsText(t, v) else t == v
  {
    hide Like, ContainsText, Plain;
    var f := Q.Filter(schema[field].column, v, schema[field].isPartial);
    PlainContains(v, text(f.column, row));
    assert [f][0] == f;
  }

  lemma PassesMeansFits<Row(!new)>(
      schema: Q.Schema, filters: seq<Q.Filter>, fields: seq<string>, vals: seq<string>,
      holds: (Clause, Row) -> bool, text: (string, Row) -> string, row: Row)
    requires |vals| == |fields| && (forall i :: 0 <= i < |fields| ==> fields[i] in schema)
    requires forall i :: 0 <= i < |fields| ==>
               Q.Filter(schema[fields[i]].column, vals[i], schema[fields[i]].isPartial) in filters
    requires forall f :: f in filters ==>
               exists i :: 0 <= i < |fields| && f == Q.Filter(schema[fields[i]].column, vals[i], schema[fields[i]].isPartial)
    requires ReadsClauses(holds, text)
    requires forall i :: 0 <= i < |vals| ==> Plain(vals[i])
    ensures Passes(filters, holds)(row) <==> Fits(schema, fields, vals, text, row)
  {
    hide Plain, ContainsText, Like;
    forall i | 0 <= i < |fields|
      ensures Passes([Q.Filter(schema[fields[i]].column, vals[i], schema[fields[i]].isPartial)], holds)(row)
              <==> var t := text(schema[fields[i]].column, row);
                   if schema[fields[i]].isPartial then ContainsText(t, vals[i]) else t == vals[i]
    {
      FilterFits(schema, fields[i], vals[i], holds, text, row);
    }
    forall f ensures Passes([f], holds)(row)
                <==> if f.isPartial then holds(ILike(f.column, "%" + f.value + "%"), row)
                     else holds(Equals(f.column, f.value), row)
    {
      assert [f][0] == f;
    }
    if Passes(filters, holds)(row) {
      forall i | 0 <= i < |fields|
        ensures Passes([Q.Filter(schema[fields[i]].column, vals[i], schema[fields[i]].isPartial)], holds)(row)
      {
        var j :| 0 <= j < |filters| && filters[j] == Q.Filter(schema[fields[i]].column, vals[i], schema[fields[i]].isPartial);
      }
    }
    if Fits(schema, fields, vals, text, row) {
      forall j | 0 <= j < |filters| ensures Passes([filters[j]], holds)(row) {
        assert filters[j] in filters;
        var i :| 0 <= i < |fields| && filters[j] == Q.Filter(schema[fields[i]].column, vals[i], schema[fields[i]].isPartial);
      }
    }
  }

  /** What "filter[field]=value" means, from the parameters of the request to the rows of the
      table: on a database that reads clauses as SQL does, a row is in the result as often as it
      is in the table if for every field asked for its column has the value, or contains it where
      the field is a string, and not at all otherwise. */
  lemma {:induction false} ResultIsWhatWasAskedFor<Row(!new)>(
      src: Source<Row>, keys: seq<string>, fields: seq<string>, vals: seq<string>, text: (string, Row) -> string, row: Row)
    requires Q.Enumerates(keys, src.values) && Q.AsksFor(src.values, src.schema, fields, vals)
    requires ReadsClauses(src.holds, text) && Reorders(src.arrange)
    requires forall i :: 0 <= i < |vals| ==> Plain(vals[i])
    ensures multiset(Ordered(src, keys))[row]
         == if Fits(src.schema, fields, vals, text, row) then multiset(src.rows)[row] else 0
  {
    var filters := Q.Resolved(src.values, keys, src.schema).filters;
    SelectedKeepsCopies(src.rows, filters, src.holds, row);
    assert multiset(Ordered(src, keys)) == multiset(Chosen(src, keys));
    Q.FilterRoundTrip(src.values, keys, src.schema, fields, vals);
    PassesMeansFits(src.schema, filters, fields, vals, src.holds, text, row);
  }

  /** Rows a and b in the order the items ask for: by the first item, and by the others among
      rows equal in it. `rank` is how the values of a column compare. */
  ghost predicate InItemOrder<Row>(items: seq<string>, rank: (string, Row) -> int, a: Row, b: Row) {
    items == [] ||
    match ReadItem(items[0])
    case None => true
    case Some(s) =>
      if rank(s.column, a) == rank(s.column, b) then InItemOrder(items[1..], rank, a, b)
      else if s.desc then rank(s.column, a) > rank(s.column, b)
      else rank(s.column, a) < rank(s.column, b)
  }

  /** The database orders rows as the items read. */
  ghost predicate ReadsItems<Row(!new)>(arrange: (seq<string>, seq<Row>) -> seq<Row>, rank: (string, Row) -> int) {
    forall items, rows, i, j :: 0 <= i < j < |arrange(items, rows)| ==>
      InItemOrder(items, rank, arrange(items, rows)[i], arrange(items, rows)[j])
  }

  /** Rows a and b in the order the request asks for: field by field, downwards where its name
      has a minus sign. */
  ghost predicate InAskedOrder<Row>(
      schema: Q.Schema, ds: seq<Q.Directive>, rank: (string, Row) -> int, a: Row, b: Row)
    requires forall i :: 0 <= i < |ds| ==> ds[i].field in schema
  {
    ds == [] ||
    var column := schema[ds[0].field].column;
    if rank(column, a) == rank(column, b) then InAskedOrder(schema, ds[1..], rank, a, b)
    else if ds[0].desc then rank(column, a) > rank(column, b)
    else rank(column, a) < rank(column, b)
  }

  lemma {:induction false} ItemsAskForOrder<Row>(
      schema: Q.Schema, ds: seq<Q.Directive>, items: seq<string>, rank: (string, Row) -> int, a: Row, b: Row)
    requires forall i :: 0 <= i < |ds| ==> ds[i].field in schema
    requires |items| == |ds|
    requires forall i :: 0 <= i < |ds| ==> ReadItem(items[i]) == Some(Q.Sort(schema[ds[i].field].column, ds[i].desc))
    ensures InItemOrder(items, rank, a, b) <==> InAskedOrder(schema, ds, rank, a, b)
  {
    hide ReadItem;
    if ds != [] {
      ItemsAskForOrder(schema, ds[1..], items[1..], rank, a, b);
    }
  }

  /** What "sort=-a,b" means, from the parameter of the request to the rows of the answer: on a
      database that reads ORDER BY items as SQL does, the rows come by the first field named, and
      by the next among equals, downwards where there is a minus sign. */
  lemma {:induction false} ResultIsInOrderAskedFor<Row(!new)>(
      src: Source<Row>, keys: seq<string>, ds: seq<Q.Directive>, rank: (string, Row) -> int, i: nat, j: nat)
    requires Q.Enumerates(keys, src.values)
    requires forall k :: 0 <= k < |ds| ==> Q.Sortable(ds[k], src.schema)
    requires if "sort" in src.values && src.values["sort"] != [] then src.values["sort"][0] == Q.SortList(ds) else ds == []
    requires ReadsItems(src.arrange, rank) && i < j < |Ordered(src, keys)|
    ensures forall k :: 0 <= k < |ds| ==> ds[k].field in src.schema
    ensures InAskedOrder(src.schema, ds, rank, Ordered(src, keys)[i], Ordered(src, keys)[j])
  {
    assert forall k :: 0 <= k < |ds| ==> Q.Sortable(ds[k], src.schema);
    Q.SortParameterRoundTrip(ds, src.values, keys, src.schema);
    var sorts := Q.Resolved(src.values, keys, src.schema).sorts;
    ItemsReadBack(sorts);
    hide ReadItem, ItemsOf, Q.SortsOf, Q.Split, Q.SortList;
    forall k | 0 <= k < |ds| ensures ReadItem(ItemsOf(sorts)[k]) == Some(Q.Sort(src.schema[ds[k].field].column, ds[k].desc)) {
      assert sorts[k] == Q.Wanted(ds[k], src.schema);
    }
    ItemsAskForOrder(src.schema, ds, ItemsOf(sorts), rank, Ordered(src, keys)[i], Ordered(src, keys)[j]);
  }

  // ----- The handler -----

  lemma PagesIgnoreThePage(page: Int64, limit: Int64)
    ensures NewParams(page, limit).limit == NewParams(1, limit).limit >= 0
    ensures NewParams(page, limit).page == if page < 1 then 1 else page
    ensures NewParams(page, limit).limit == if limit < 1 then 10 else if limit > 100 then 100 else limit
  {
  }

  datatype Response<Row> = Success(rows: seq<Row>, meta: Meta) | Failed

  class Handler<Row(!new)> {
    const repo: Repository<Row>
    const schema: Q.Schema

    constructor (repo: Repository<Row>, schema: Q.Schema)
      ensures this.repo == repo && this.schema == schema
    {
      this.repo := repo;
      this.schema := schema;
    }

    /** GET on the collection. `page` and `limit` are zero where the parameter is not a number;
        `keys` is the order in which this request's parameters are ranged over. */
    method GetAll(values: Q.Values, keys: seq<string>, page: Int64, limit: Int64,
                  countFails: bool, meanwhile: seq<Row>, fetchFails: bool) returns (r: Response<Row>)
      requires Q.Enumerates(keys, values)
      requires |repo.rows| <= MAX   // the count of a table is a 64-bit number
      modifies repo
      ensures r.Failed? <==> countFails || fetchFails
      ensures r.Success? ==>
                var counted := Source(old(repo.rows), values, schema, repo.holds, repo.arrange);
                var fetched := Source(meanwhile, values, schema, repo.holds, repo.arrange);
                && r.rows == Answer(fetched, keys, page, limit)
                && r.meta.total == |Chosen(counted, keys)|
                && r.meta.totalPages == PagesOf(|Chosen(counted, keys)|, limit)
      ensures r.Success? ==>
                && r.meta.page == (if page < 1 then 1 else page)
                && r.meta.limit == (if limit < 1 then 10 else if limit > 100 then 100 else limit)
    {
      hide Offset, Fetch, Selected, NewParams, Q.Enumerates, Q.SortsOf, Q.FiltersOf, ClausesOf, ItemsOf, Wrap, Quotient;
      PagesIgnoreThePage(page, limit);
      var params := NewParams(page, limit);
      var opts := Q.Parse(values, keys, schema);
      SelectedIsNoLonger(repo.rows, ClausesOf(opts.filters), repo.holds);
      var listing := repo.GetAll(params, opts, countFails, meanwhile, fetchFails);
      match listing
      case Internal => return Failed;
      case Listing(rows, total) =>
        r := Success(rows, NewMeta(params, total));
    }
  }
}

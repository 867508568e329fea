/** The clauses a repository makes of the resolved options (pkg/query/gorm), and what matching
    "as a substring" comes to. */
module Clauses {
  import opened Counting
  import opened Query

  datatype Clause = Equals(column: string, value: string) | ILike(column: string, pattern: string)

  /** What the builder has gathered: WHERE clauses, all of which must hold, and ORDER BY items. */
  datatype Statement = Statement(where: seq<Clause>, orderBy: seq<string>)

  function ClauseOf(f: Filter): Clause {
    if f.isPartial then ILike(f.column, "%" + f.value + "%") else Equals(f.column, f.value)
  }

  function ItemOf(s: Sort): string {
    s.column + " " + if s.desc then "DESC" else "ASC"
  }

  function ClausesOf(filters: seq<Filter>): seq<Clause> {
    if filters == [] then [] else ClausesOf(filters[..|filters| - 1]) + [ClauseOf(filters[|filters| - 1])]
  }

  function ItemsOf(sorts: seq<Sort>): seq<string> {
    if sorts == [] then [] else ItemsOf(sorts[..|sorts| - 1]) + [ItemOf(sorts[|sorts| - 1])]
  }

  /** An ORDER BY item as SQL reads it: a column, then the word that gives the direction. */
  function ReadItem(item: string): Option<Sort> {
    if |item| >= 5 && item[|item| - 5..] == " DESC" then Some(Sort(item[..|item| - 5], true))
    else if |item| >= 4 && item[|item| - 4..] == " ASC" then Some(Sort(item[..|item| - 4], false))
    else None
  }

  /** The item reads back as the directive it was made of. */
  lemma ItemReadsBack(s: Sort)
    ensures ReadItem(ItemOf(s)) == Some(s)
  {
    var item := ItemOf(s);
    if s.desc {
      assert item[|item| - 5..] == " DESC" && item[..|item| - 5] == s.column;
    } else {
      assert item[|item| - 4..] == " ASC" && item[..|item| - 4] == s.column;
      assert item[|item| - 1] == 'C' && item[|item| - 2] == 'S' && item[|item| - 3] == 'A';
      if |item| >= 5 {
        assert item[|item| - 5..][2] == item[|item| - 3];
      }
    }
  }

  lemma {:induction false} ItemsReadBack(sorts: seq<Sort>)
    ensures |ItemsOf(sorts)| == |sorts|
    ensures forall i :: 0 <= i < |sorts| ==> ReadItem(ItemsOf(sorts)[i]) == Some(sorts[i])
  {
    hide ItemOf, ReadItem;
    if sorts != [] {
      ItemsReadBack(sorts[..|sorts| - 1]);
      ItemReadsBack(sorts[|sorts| - 1]);
    }
  }

  lemma {:induction false} ClausesAt(filters: seq<Filter>)
    ensures |ClausesOf(filters)| == |filters|
    ensures forall i :: 0 <= i < |filters| ==>
              ClausesOf(filters)[i] == if filters[i].isPartial then ILike(filters[i].column, "%" + filters[i].value + "%")
                                       else Equals(filters[i].column, filters[i].value)
  {
    if filters != [] {
      ClausesAt(filters[..|filters| - 1]);
    }
  }

  /** The scope Filters returns, applied to db. */
  method Filters(db: Statement, opts: Options) returns (q: Statement)
    ensures q == Statement(db.where + ClausesOf(opts.filters), db.orderBy)
    // one clause a filter, in order: equality of its column with its value, or its value
    // between percent signs
    ensures |q.where| == |db.where| + |opts.filters| && db.where <= q.where
    ensures forall i :: 0 <= i < |opts.filters| ==>
              var f := opts.filters[i];
              q.where[|db.where| + i] == if f.isPartial then ILike(f.column, "%" + f.value + "%") else Equals(f.column, f.value)
  {
    q := db;
    var i := 0;
    while i < |opts.filters|
      invariant 0 <= i <= |opts.filters|
      invariant q == Statement(db.where + ClausesOf(opts.filters[..i]), db.orderBy)
    {
      assert opts.filters[..i + 1][..i] == opts.filters[..i];
      var f := opts.filters[i];
      if f.isPartial {
        q := q.(where := q.where + [ILike(f.column, "%" + f.value + "%")]);
      } else {
        q := q.(where := q.where + [Equals(f.column, f.value)]);
      }
      i := i + 1;
    }
    assert opts.filters[..|opts.filters|] == opts.filters;
    ClausesAt(opts.filters);
  }

  /** The scope Sorts returns, applied to db. */
  method Sorts(db: Statement, opts: Options) returns (q: Statement)
    ensures q == Statement(db.where, db.orderBy + ItemsOf(opts.sorts))
    // what SQL reads back is the list of sorts, in order
    ensures |q.orderBy| == |db.orderBy| + |opts.sorts| && db.orderBy <= q.orderBy
    ensures forall i :: 0 <= i < |opts.sorts| ==> ReadItem(q.orderBy[|db.orderBy| + i]) == Some(opts.sorts[i])
  {
    hide ReadItem;
    q := db;
    var i := 0;
    while i < |opts.sorts|
      invariant 0 <= i <= |opts.sorts|
      invariant q == Statement(db.where, db.orderBy + ItemsOf(opts.sorts[..i]))
    {
      assert opts.sorts[..i + 1][..i] == opts.sorts[..i];
      var s := opts.sorts[i];
      var direction := "ASC";
      if s.desc {
        direction := "DESC";
      }
      q := q.(orderBy := q.orderBy + [s.column + " " + direction]);
      i := i + 1;
    }
    assert opts.sorts[..|opts.sorts|] == opts.sorts;
    ItemsReadBack(opts.sorts);
  }

  lemma {:induction false} ClauseMembers(filters: seq<Filter>, c: Clause)
    ensures c in ClausesOf(filters) <==> exists f :: f in filters && ClauseOf(f) == c
  {
    if filters != [] {
      var n := |filters| - 1;
      ClauseMembers(filters[..n], c);
      assert filters == filters[..n] + [filters[n]];
    }
  }

  // ----- What "matches as a substring" comes to -----

  /** SQL LIKE: '%' any run, '_' any one character, '\' takes the next character literally. */
  predicate Like(pattern: string, text: string)
    decreases |pattern| + |text|
  {
    if pattern == "" then text == ""
    else if pattern[0] == '%' then Like(pattern[1..], text) || (text != "" && Like(pattern, text[1..]))
    else if pattern[0] == '_' then text != "" && Like(pattern[1..], text[1..])
    else if pattern[0] == '\\' && |pattern| >= 2 then text != "" && pattern[1] == text[0] && Like(pattern[2..], text[1..])
    else text != "" && pattern[0] == text[0] && Like(pattern[1..], text[1..])
  }

  predicate Special(c: char) { c == '%' || c == '_' || c == '\\' }

  predicate Plain(v: string) { forall c :: c in v ==> !Special(c) }

  predicate At(text: string, v: string, i: int) {
    0 <= i <= |text| - |v| && text[i..i + |v|] == v
  }

  ghost predicate ContainsText(text: string, v: string) {
    exists i :: At(text, v, i)
  }

  lemma {:induction false} PercentMatchesAll(text: string)
    ensures Like("%", text)
  {
    if text != "" {
      PercentMatchesAll(text[1..]);
    }
  }

  lemma {:induction false} PlainPrefix(v: string, text: string)
    requires Plain(v)
    ensures Like(v + "%", text) <==> v <= text
  {
    if v == "" {
      assert v + "%" == "%";
      PercentMatchesAll(text);
    } else {
      assert v[0] in v && !Special(v[0]);
      assert (v + "%")[1..] == v[1..] + "%" && (v + "%")[0] == v[0];
      if text != "" && text[0] == v[0] {
        assert forall c :: c in v[1..] ==> c in v;
        PlainPrefix(v[1..], text[1..]);
        assert v == [v[0]] + v[1..] && text == [text[0]] + text[1..];
      }
    }
  }

  lemma {:induction false} PlainContains(v: string, text: string)
    requires Plain(v)
    ensures Like("%" + v + "%", text) <==> ContainsText(text, v)
  {
    var p := "%" + v + "%";
    assert p[1..] == v + "%";
    PlainPrefix(v, text);
    if v <= text {
      assert At(text, v, 0);
    }
    if text != "" {
      var rest := text[1..];
      PlainContains(v, rest);
      if ContainsText(rest, v) {
        var i :| At(rest, v, i);
        assert rest[i..i + |v|] == text[i + 1..i + 1 + |v|];
        assert At(text, v, i + 1);
      }
      if ContainsText(text, v) && !(v <= text) {
        var i :| At(text, v, i);
        assert i > 0;
        assert rest[i - 1..i - 1 + |v|] == text[i..i + |v|];
        assert At(rest, v, i - 1);
      }
    }
  }

  /** A text no longer than v, and different from it, does not contain it. */
  lemma NoRoom(text: string, v: string)
    requires |text| <= |v| && text != v
    ensures !ContainsText(text, v)
  {
    forall i ensures !At(text, v, i) {
      if 0 <= i <= |text| - |v| {
        assert text[i..i + |v|] == text;
      }
    }
  }

  /** A text the pattern of v matches: each special character replaced by something it stands for. */
  function Instance(v: string): string {
    if v == "" then ""
    else if v[0] == '%' then Instance(v[1..])
    else if v[0] == '_' then "x" + Instance(v[1..])
    else if v[0] == '\\' then (if |v| >= 2 then [v[1]] + Instance(v[2..]) else "%")
    else [v[0]] + Instance(v[1..])
  }

  lemma {:induction false} InstanceMatches(v: string)
    ensures Like(v + "%", Instance(v)) && |Instance(v)| <= |v|
    ensures !Plain(v) ==> Instance(v) != v
  {
    if v == "" {
      assert v + "%" == "%";
    } else {
      var p := v + "%";
      assert p[0] == v[0] && p[1..] == v[1..] + "%";
      InstanceMatches(v[1..]);
      if v[0] == '\\' && |v| >= 2 {
        assert p[2..] == v[2..] + "%" && p[1] == v[1];
        InstanceMatches(v[2..]);
        assert Instance(v)[1..] == Instance(v[2..]);
      } else if v[0] == '\\' {
        assert p == "\\%" && Instance(v) == "%";
        assert p[2..] == "" && Instance(v)[1..] == "";
      } else if v[0] != '%' {
        assert Instance(v)[1..] == Instance(v[1..]);
        if !Special(v[0]) && !Plain(v) {
          assert exists c :: c in v[1..] && Special(c);
          assert v == [v[0]] + v[1..];
        }
      }
    }
  }

  /** What a clause asks of a text column. */
  predicate Accepts(c: Clause, text: string) {
    match c
    case Equals(_, value) => text == value
    case ILike(_, pattern) => Like(pattern, text)
  }

  /** "String fields match as a substring" holds of a filter, on every text, exactly when its
      value has no %, _ or backslash: the value is placed in the pattern unescaped. */
  lemma {:induction false} SubstringMatchNeedsPlainValue(f: Filter)
    requires f.isPartial
    ensures (forall text :: Accepts(ClauseOf(f), text) <==> ContainsText(text, f.value)) <==> Plain(f.value)
  {
    var v := f.value;
    if Plain(v) {
      forall text ensures Accepts(ClauseOf(f), text) <==> ContainsText(text, v) {
        PlainContains(v, text);
      }
    } else {
      var text := Instance(v);
      InstanceMatches(v);
      assert ("%" + v + "%")[1..] == v + "%";
      assert Like("%" + v + "%", text);
      assert Accepts(ClauseOf(f), text);
      NoRoom(text, v);
    }
  }
}

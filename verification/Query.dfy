/** List-endpoint parameters: sort and filter parsing against an allowlist (pkg/query). */
module Query {
  import opened Counting

  datatype Sort = Sort(column: string, desc: bool)
  datatype Filter = Filter(column: string, value: string, isPartial: bool)
  datatype Options = Options(sorts: seq<Sort>, filters: seq<Filter>)
  datatype FieldSpec = FieldSpec(column: string, sortable: bool, filterable: bool, isPartial: bool)

  type Schema = map<string, FieldSpec>

  /** Query parameters, each with its list of values. */
  type Values = map<string, seq<string>>

  // ----- Strings -----

  /** Unicode white space, as strings.TrimSpace trims it. */
  predicate IsSpace(c: char) {
    || c in " \t\n\r" || c == '\U{0B}' || c == '\U{0C}' || c == '\U{85}' || c == '\U{A0}' || c == '\U{1680}'
    || '\U{2000}' <= c <= '\U{200A}' || c == '\U{2028}' || c == '\U{2029}' || c == '\U{202F}'
    || c == '\U{205F}' || c == '\U{3000}'
  }

  /** The code points of white space, one by one. */
  lemma SpacesAre(c: char)
    ensures IsSpace(c) <==>
              || c as int in {0x9, 0xA, 0xB, 0xC, 0xD, 0x20, 0x85, 0xA0, 0x1680}
              || c as int in {0x2000, 0x2001, 0x2002, 0x2003, 0x2004, 0x2005, 0x2006, 0x2007, 0x2008, 0x2009, 0x200A}
              || c as int in {0x2028, 0x2029, 0x202F, 0x205F, 0x3000}
  {
  }

  function TrimLeft(s: string): string {
    if s != "" && IsSpace(s[0]) then TrimLeft(s[1..]) else s
  }

  function TrimRight(s: string): string {
    if s != "" && IsSpace(s[|s| - 1]) then TrimRight(s[..|s| - 1]) else s
  }

  function TrimSpace(s: string): string {
    TrimRight(TrimLeft(s))
  }

  /** strings.Split on a comma: the empty string has one, empty, part. */
  function Split(s: string): (parts: seq<string>)
    ensures |parts| >= 1
  {
    if s == "" then [""]
    else if s[0] == ',' then [""] + Split(s[1..])
    else
      var rest := Split(s[1..]);
      [[s[0]] + rest[0]] + rest[1..]
  }

  function Join(parts: seq<string>): string
    requires parts != []
  {
    if |parts| == 1 then parts[0] else parts[0] + "," + Join(parts[1..])
  }

  lemma {:induction false} SplitPrefix(a: string, s: string)
    requires ',' !in a
    ensures Split(a + s)[0] == a + Split(s)[0] && Split(a + s)[1..] == Split(s)[1..]
  {
    if a == "" {
      assert a + s == s;
    } else {
      assert (a + s)[1..] == a[1..] + s && (a + s)[0] == a[0];
      assert a[0] in a;
      SplitPrefix(a[1..], s);
      assert a == [a[0]] + a[1..];
    }
  }

  lemma {:induction false} SplitJoin(parts: seq<string>)
    requires parts != [] && forall i :: 0 <= i < |parts| ==> ',' !in parts[i]
    ensures Split(Join(parts)) == parts
  {
    if |parts| == 1 {
      SplitPrefix(parts[0], "");
      assert parts[0] + "" == parts[0];
    } else {
      SplitJoin(parts[1..]);
      var tail := "," + Join(parts[1..]);
      assert tail[1..] == Join(parts[1..]);
      assert Split(tail) == [""] + parts[1..];
      assert Join(parts) == parts[0] + tail;
      SplitPrefix(parts[0], tail);
      assert parts[0] + "" == parts[0] && parts == [parts[0]] + parts[1..];
      assert Split(Join(parts)) == [Split(Join(parts))[0]] + Split(Join(parts))[1..];
    }
  }

  // ----- Parsing -----

  /** The directive a sort token stands for, if it names a sortable field. */
  function SortOf(raw: string, schema: Schema): Option<Sort> {
    var trimmed := TrimSpace(raw);
    var desc := trimmed != "" && trimmed[0] == '-';
    var field := if desc then trimmed[1..] else trimmed;
    if field != "" && field in schema && schema[field].sortable then Some(Sort(schema[field].column, desc)) else None
  }

  function SortsOf(tokens: seq<string>, schema: Schema): seq<Sort> {
    if tokens == [] then []
    else
      var last := SortOf(tokens[|tokens| - 1], schema);
      SortsOf(tokens[..|tokens| - 1], schema) + if last.Some? then [last.value] else []
  }

  predicate IsWordChar(c: char) {
    'a' <= c <= 'z' || 'A' <= c <= 'Z' || '0' <= c <= '9' || c == '_'
  }

  /** The word characters, one by one. */
  lemma WordCharsAre(c: char)
    ensures IsWordChar(c) <==>
              c in "abcdefghijklmnopqrstuvwxyz" || c in "ABCDEFGHIJKLMNOPQRSTUVWXYZ" || c in "0123456789_"
  {
    var lower, upper, digits := "abcdefghijklmnopqrstuvwxyz", "ABCDEFGHIJKLMNOPQRSTUVWXYZ", "0123456789_";
    assert forall i :: 0 <= i < 26 ==> lower[i] as int == 97 + i && upper[i] as int == 65 + i;
    assert forall i :: 0 <= i < 10 ==> digits[i] as int == 48 + i;
    if 'a' <= c <= 'z' { assert lower[c as int - 97] == c; }
    if 'A' <= c <= 'Z' { assert upper[c as int - 65] == c; }
    if '0' <= c <= '9' { assert digits[c as int - 48] == c; }
    if c == '_' { assert digits[10] == c; }
  }

  const PREFIX := "filter["

  /** The field of a key of the form filter[field]. */
  function FieldOf(key: string): Option<string> {
    if |key| > |PREFIX| + 1 && PREFIX <= key && key[|key| - 1] == ']'
       && forall i :: |PREFIX| <= i < |key| - 1 ==> IsWordChar(key[i])
    then Some(key[|PREFIX|..|key| - 1])
    else None
  }

  /** The predicate a parameter stands for, if it names a filterable field and has a value. */
  function FilterOf(key: string, vals: seq<string>, schema: Schema): Option<Filter> {
    var field := FieldOf(key);
    if field.None? || vals == [] || vals[0] == "" then None
    else if field.value in schema && schema[field.value].filterable
    then Some(Filter(schema[field.value].column, vals[0], schema[field.value].isPartial))
    else None
  }

  function FiltersOf(keys: seq<string>, values: Values, schema: Schema): seq<Filter>
    requires forall k :: k in keys ==> k in values
  {
    if keys == [] then []
    else
      var key := keys[|keys| - 1];
      var last := FilterOf(key, values[key], schema);
      FiltersOf(keys[..|keys| - 1], values, schema) + if last.Some? then [last.value] else []
  }

  /** An order in which a map may be ranged over: each key once. */
  ghost predicate Enumerates(keys: seq<string>, values: Values) {
    && (forall k :: k in keys <==> k in values)
    && (forall i, j :: 0 <= i < j < |keys| ==> keys[i] != keys[j])
  }

  /** Every request can be ranged over. */
  lemma {:induction false} EveryRequestHasAnOrder(values: Values) returns (keys: seq<string>)
    ensures Enumerates(keys, values)
    decreases |values|
  {
    if |values| == 0 {
      keys := [];
    } else {
      assert |values.Keys| > 0;
      var k :| k in values.Keys;
      var rest := values - {k};
      assert rest.Keys == values.Keys - {k};
      assert |rest.Keys| == |rest| && |values.Keys| == |values|;
      keys := EveryRequestHasAnOrder(rest);
      keys := keys + [k];
    }
  }

  function Get(values: Values, key: string): string {
    if key in values && values[key] != [] then values[key][0] else ""
  }

  /** What a request resolves to when its parameters are ranged over in the order `keys`. */
  ghost function Resolved(values: Values, keys: seq<string>, schema: Schema): Options
    requires Enumerates(keys, values)
  {
    Options(SortsOf(Split(Get(values, "sort")), schema), FiltersOf(keys, values, schema))
  }

  /** The first loop of Parse. */
  method ParseSorts(tokens: seq<string>, schema: Schema) returns (sorts: seq<Sort>)
    ensures sorts == SortsOf(tokens, schema)
  {
    hide TrimSpace;
    sorts := [];
    var i := 0;
    while i < |tokens|
      invariant 0 <= i <= |tokens|
      invariant sorts == SortsOf(tokens[..i], schema)
    {
      assert tokens[..i + 1][..i] == tokens[..i];
      var field := TrimSpace(tokens[i]);
      i := i + 1;
      var desc := false;
      if field != "" && field[0] == '-' {
        desc := true;
        field := field[1..];
      }
      if field == "" {
        continue;
      }
      if field in schema && schema[field].sortable {
        sorts := sorts + [Sort(schema[field].column, desc)];
      }
    }
    assert tokens[..|tokens|] == tokens;
  }

  /** The second loop of Parse, ranging over the parameters in the order `keys`. */
  method ParseFilters(values: Values, keys: seq<string>, schema: Schema) returns (filters: seq<Filter>)
    requires Enumerates(keys, values)
    ensures filters == FiltersOf(keys, values, schema)
  {
    hide FieldOf;
    filters := [];
    var j := 0;
    while j < |keys|
      invariant 0 <= j <= |keys|
      invariant filters == FiltersOf(keys[..j], values, schema)
    {
      assert keys[..j + 1][..j] == keys[..j];
      var key := keys[j];
      j := j + 1;
      var field := FieldOf(key);
      var vals := values[key];
      if field.None? || |vals| == 0 {
        continue;
      }
      var value := vals[0];
      if value == "" {
        continue;
      }
      if field.value in schema && schema[field.value].filterable {
        filters := filters + [Filter(schema[field.value].column, value, schema[field.value].isPartial)];
      }
    }
    assert keys[..|keys|] == keys;
  }

  method Parse(values: Values, keys: seq<string>, schema: Schema) returns (opts: Options)
    requires Enumerates(keys, values)
    ensures opts == Resolved(values, keys, schema)
  {
    var sorts := ParseSorts(Split(Get(values, "sort")), schema);
    var filters := ParseFilters(values, keys, schema);
    opts := Options(sorts, filters);
  }

  // ----- Sorts: the round trip -----

  /** A field name that can be written in a sort list. */
  predicate Writable(field: string) {
    && field != "" && ',' !in field && field[0] != '-'
    && !IsSpace(field[0]) && !IsSpace(field[|field| - 1])
  }

  predicate Blank(s: string) { forall c :: c in s ==> IsSpace(c) }

  /** A field to sort by, its direction, and the white space around it. */
  datatype Directive = Directive(before: string, field: string, desc: bool, after: string)

  function Core(d: Directive): string {
    (if d.desc then "-" else "") + d.field
  }

  function Token(d: Directive): string {
    d.before + Core(d) + d.after
  }

  function Tokens(ds: seq<Directive>): seq<string> {
    seq(|ds|, i requires 0 <= i < |ds| => Token(ds[i]))
  }

  function SortList(ds: seq<Directive>): string {
    if ds == [] then "" else Join(Tokens(ds))
  }

  predicate Sortable(d: Directive, schema: Schema) {
    && Writable(d.field) && Blank(d.before) && Blank(d.after)
    && d.field in schema && schema[d.field].sortable
  }

  function Wanted(d: Directive, schema: Schema): Sort
    requires Sortable(d, schema)
  {
    Sort(schema[d.field].column, d.desc)
  }

  lemma {:induction false} TrimLeftBlank(before: string, s: string)
    requires Blank(before) && s != "" && !IsSpace(s[0])
    ensures TrimLeft(before + s) == s
  {
    if before == "" {
      assert before + s == s;
    } else {
      assert before[0] in before;
      assert (before + s)[1..] == before[1..] + s;
      TrimLeftBlank(before[1..], s);
    }
  }

  lemma {:induction false} TrimRightBlank(s: string, after: string)
    requires Blank(after) && s != "" && !IsSpace(s[|s| - 1])
    ensures TrimRight(s + after) == s
  {
    if after == "" {
      assert s + after == s;
    } else {
      var n := |after| - 1;
      assert after[n] in after;
      assert (s + after)[..|s + after| - 1] == s + after[..n];
      TrimRightBlank(s, after[..n]);
    }
  }

  lemma CoreIsTight(d: Directive)
    requires Writable(d.field)
    ensures var core := Core(d); core != "" && !IsSpace(core[0]) && !IsSpace(core[|core| - 1])
  {
    var core := Core(d);
    assert core[|core| - 1] == d.field[|d.field| - 1];
    assert !d.desc ==> core == d.field;
  }

  lemma TokenTrims(d: Directive)
    requires Writable(d.field) && Blank(d.before) && Blank(d.after)
    ensures TrimSpace(Token(d)) == Core(d)
  {
    hide IsSpace, TrimLeft, TrimRight;
    CoreIsTight(d);
    assert Token(d) == d.before + (Core(d) + d.after);
    TrimLeftBlank(d.before, Core(d) + d.after);
    TrimRightBlank(Core(d), d.after);
  }

  lemma TokenParses(d: Directive, schema: Schema)
    requires Sortable(d, schema)
    ensures SortOf(Token(d), schema) == Some(Wanted(d, schema))
  {
    TokenTrims(d);
    hide Token, TrimSpace, Blank, IsSpace;
    var core := Core(d);
    assert if d.desc then core[0] == '-' && core[1..] == d.field else core == d.field;
  }

  lemma {:induction false} TokensParse(ds: seq<Directive>, schema: Schema)
    requires forall i :: 0 <= i < |ds| ==> Sortable(ds[i], schema)
    ensures var sorts := SortsOf(Tokens(ds), schema);
            |sorts| == |ds| && forall i :: 0 <= i < |ds| ==> sorts[i] == Wanted(ds[i], schema)
  {
    hide SortOf, Token;
    if ds != [] {
      var n := |ds| - 1;
      TokensParse(ds[..n], schema);
      assert Tokens(ds)[..n] == Tokens(ds[..n]);
      TokenParses(ds[n], schema);
    }
  }

  /** Printing any list of sortable fields with directions as a comma-joined list, with any
      white space around each, and parsing it gives back exactly that list of columns, in order. */
  lemma {:induction false} SortRoundTrip(ds: seq<Directive>, schema: Schema)
    requires forall i :: 0 <= i < |ds| ==> Sortable(ds[i], schema)
    ensures var sorts := SortsOf(Split(SortList(ds)), schema);
            |sorts| == |ds| && forall i :: 0 <= i < |ds| ==> sorts[i] == Wanted(ds[i], schema)
  {
    if ds == [] {
      assert Split(SortList(ds))[..0] == [];
    } else {
      var tokens := Tokens(ds);
      forall i | 0 <= i < |tokens| ensures ',' !in tokens[i] {
        assert tokens[i] == Token(ds[i]) && Sortable(ds[i], schema);
      }
      SplitJoin(tokens);
      TokensParse(ds, schema);
    }
  }

  /** The same through the whole request: the parameter named "sort" is what is parsed, and of
      several values the first; without it there are no sorts. */
  lemma {:induction false} SortParameterRoundTrip(
      ds: seq<Directive>, values: Values, keys: seq<string>, schema: Schema)
    requires Enumerates(keys, values)
    requires forall i :: 0 <= i < |ds| ==> Sortable(ds[i], schema)
    requires if "sort" in values && values["sort"] != [] then values["sort"][0] == SortList(ds) else ds == []
    ensures var sorts := Resolved(values, keys, schema).sorts;
            |sorts| == |ds| && forall i :: 0 <= i < |ds| ==> sorts[i] == Wanted(ds[i], schema)
  {
    SortRoundTrip(ds, schema);
  }

  /** The column of some field the schema lets a request sort by. */
  ghost predicate FromSortable(schema: Schema, column: string) {
    exists field :: field in schema && schema[field].sortable && schema[field].column == column
  }

  /** For any input at all, the sorts are an allowlisted subsequence of the tokens: `at` names,
      in increasing order, the token each came from, and every other token resolves to nothing. */
  lemma {:induction false} SortsAreAllowlisted(tokens: seq<string>, schema: Schema) returns (at: seq<nat>)
    ensures |at| == |SortsOf(tokens, schema)|
    ensures forall i :: 0 <= i < |at| ==>
              at[i] < |tokens| && SortOf(tokens[at[i]], schema) == Some(SortsOf(tokens, schema)[i])
    ensures forall i, j :: 0 <= i < j < |at| ==> at[i] < at[j]
    ensures forall k :: 0 <= k < |tokens| && k !in at ==> SortOf(tokens[k], schema) == None
    ensures forall s :: s in SortsOf(tokens, schema) ==> FromSortable(schema, s.column)
  {
    hide TrimSpace;
    if tokens == [] {
      at := [];
    } else {
      var n := |tokens| - 1;
      at := SortsAreAllowlisted(tokens[..n], schema);
      if SortOf(tokens[n], schema).Some? {
        at := at + [n];
        assert n in at;
      }
    }
  }

  // ----- Filters: independence of map order -----

  ghost predicate SomeKeyGives(keys: seq<string>, values: Values, schema: Schema, f: Filter)
    requires forall k :: k in keys ==> k in values
  {
    exists k :: k in keys && FilterOf(k, values[k], schema) == Some(f)
  }

  lemma {:induction false} FilterMembers(keys: seq<string>, values: Values, schema: Schema, f: Filter)
    requires forall k :: k in keys ==> k in values
    ensures f in FiltersOf(keys, values, schema) <==> SomeKeyGives(keys, values, schema, f)
  {
    hide FilterOf;
    if keys != [] {
      var n := |keys| - 1;
      FilterMembers(keys[..n], values, schema, f);
      assert keys == keys[..n] + [keys[n]];
      assert SomeKeyGives(keys, values, schema, f)
        <==> SomeKeyGives(keys[..n], values, schema, f) || FilterOf(keys[n], values[keys[n]], schema) == Some(f);
    }
  }

  /** Any two orders of the parameters give the same filters, up to their order. */
  lemma {:induction false} FilterOrderIsIrrelevant(one: seq<string>, two: seq<string>, values: Values, schema: Schema)
    requires Enumerates(one, values) && Enumerates(two, values)
    ensures forall f :: f in FiltersOf(one, values, schema) <==> f in FiltersOf(two, values, schema)
  {
    forall f ensures f in FiltersOf(one, values, schema) <==> f in FiltersOf(two, values, schema) {
      FilterMembers(one, values, schema, f);
      FilterMembers(two, values, schema, f);
      assert forall k :: k in one <==> k in two by {
        assert forall k :: k in one <==> k in values;
      }
    }
  }

  /** A parameter filters by one field, and two parameters for the same field are one parameter. */
  lemma FieldDeterminesKey(a: string, b: string)
    requires FieldOf(a).Some? && FieldOf(a) == FieldOf(b)
    ensures a == b
  {
    assert a == PREFIX + FieldOf(a).value + "]";
    assert b == PREFIX + FieldOf(b).value + "]";
  }

  function FilterKey(field: string): string { PREFIX + field + "]" }

  /** A request asks to filter by this field, and the schema lets it. */
  predicate Filtered(values: Values, schema: Schema, field: string) {
    && field in schema && schema[field].filterable
    && field != "" && (forall i :: 0 <= i < |field| ==> IsWordChar(field[i]))
    && Get(values, FilterKey(field)) != ""
  }

  lemma FieldOfKey(key: string, field: string)
    ensures FieldOf(key) == Some(field) <==>
              key == FilterKey(field) && field != "" && forall i :: 0 <= i < |field| ==> IsWordChar(field[i])
  {
    if key == FilterKey(field) {
      assert key[|PREFIX|..|key| - 1] == field;
      assert forall i :: 0 <= i < |field| ==> field[i] == key[|PREFIX| + i];
    }
    if FieldOf(key) == Some(field) {
      assert key == PREFIX + field + "]";
    }
  }

  lemma LastKey(keys: seq<string>, values: Values, schema: Schema, before: seq<string>, fields: seq<string>)
    requires keys != [] && (forall k :: k in keys ==> k in values)
    requires forall i, j :: 0 <= i < j < |keys| ==> keys[i] != keys[j]
    requires forall f :: f in before <==> FilterKey(f) in keys[..|keys| - 1] && Filtered(values, schema, f)
    requires var last := keys[|keys| - 1];
             fields == if FilterOf(last, values[last], schema).Some? then before + [FieldOf(last).value] else before
    ensures forall f :: f in fields <==> FilterKey(f) in keys && Filtered(values, schema, f)
    ensures |fields| > |before| ==> FilterKey(fields[|before|]) == keys[|keys| - 1] && fields[|before|] !in before
  {
    hide FieldOf, FilterKey;
    var last := keys[|keys| - 1];
    assert keys == keys[..|keys| - 1] + [last];
    forall f ensures f in fields <==> FilterKey(f) in keys && Filtered(values, schema, f) {
      FieldOfKey(last, f);
    }
    if |fields| > |before| {
      FieldOfKey(last, FieldOf(last).value);
    }
  }

  /** For any input at all, there is one filter for each filtered field and no other: it bears
      the schema's column and mode and the first value given. */
  lemma {:induction false} FiltersAreAllowlisted(keys: seq<string>, values: Values, schema: Schema)
      returns (fields: seq<string>)
    requires forall k :: k in keys ==> k in values
    requires forall i, j :: 0 <= i < j < |keys| ==> keys[i] != keys[j]
    ensures forall field :: field in fields <==> FilterKey(field) in keys && Filtered(values, schema, field)
    ensures forall i, j :: 0 <= i < j < |fields| ==> fields[i] != fields[j]
    ensures var filters := FiltersOf(keys, values, schema);
            && |filters| == |fields|
            && forall i :: 0 <= i < |fields| ==>
                 && fields[i] in schema
                 && filters[i] == Filter(schema[fields[i]].column, Get(values, FilterKey(fields[i])), schema[fields[i]].isPartial)
  {
    hide FieldOf, FilterKey;
    if keys == [] {
      fields := [];
    } else {
      var n := |keys| - 1;
      var before := FiltersAreAllowlisted(keys[..n], values, schema);
      var field := FieldOf(keys[n]);
      forall f ensures FieldOf(keys[n]) == Some(f) <==> keys[n] == FilterKey(f) && FieldOf(keys[n]).Some? && field == Some(f) {
        FieldOfKey(keys[n], f);
      }
      fields := if FilterOf(keys[n], values[keys[n]], schema).Some? then before + [field.value] else before;
      LastKey(keys, values, schema, before, fields);
    }
  }

  /** The parameters ask for exactly these filters: for each field the parameter "filter[field]",
      with this first value, and nothing else the schema knows how to filter by. */
  ghost predicate AsksFor(values: Values, schema: Schema, fields: seq<string>, vals: seq<string>) {
    && |vals| == |fields|
    && (forall i :: 0 <= i < |fields| ==>
          var key := "filter[" + fields[i] + "]";
          && key in values && values[key] != [] && values[key][0] == vals[i] && vals[i] != ""
          && fields[i] in schema && schema[fields[i]].filterable
          && fields[i] != "" && forall j :: 0 <= j < |fields[i]| ==> IsWordChar(fields[i][j]))
    && (forall i, j :: 0 <= i < j < |fields| ==> fields[i] != fields[j])
    && (forall field :: field in schema && schema[field].filterable && "filter[" + field + "]" in values ==> field in fields)
  }

  lemma {:induction false} Elements(a: seq<string>)
    requires forall i, j :: 0 <= i < j < |a| ==> a[i] != a[j]
    ensures |set x | x in a| == |a|
  {
    if a != [] {
      var n := |a| - 1;
      Elements(a[..n]);
      assert (set x | x in a) == (set x | x in a[..n]) + {a[n]};
    }
  }

  /** Lists of the same elements, none twice, are equally long. */
  lemma {:induction false} SameLength(a: seq<string>, b: seq<string>)
    requires forall x :: x in a <==> x in b
    requires forall i, j :: 0 <= i < j < |a| ==> a[i] != a[j]
    requires forall i, j :: 0 <= i < j < |b| ==> b[i] != b[j]
    ensures |a| == |b|
  {
    Elements(a);
    Elements(b);
    assert (set x | x in a) == (set x | x in b);
  }

  /** Asking by the literal parameter names for any list of filters gives exactly those filters,
      whatever order the parameters are ranged over in. */
  lemma {:induction false} FilterRoundTrip(
      values: Values, keys: seq<string>, schema: Schema, fields: seq<string>, vals: seq<string>)
    requires Enumerates(keys, values) && AsksFor(values, schema, fields, vals)
    ensures var filters := Resolved(values, keys, schema).filters;
            && |filters| == |fields|
            && (forall i :: 0 <= i < |fields| ==>
                  Filter(schema[fields[i]].column, vals[i], schema[fields[i]].isPartial) in filters)
            && (forall f :: f in filters ==>
                  exists i :: 0 <= i < |fields| && f == Filter(schema[fields[i]].column, vals[i], schema[fields[i]].isPartial))
  {
    hide IsWordChar;
    var filters := FiltersOf(keys, values, schema);
    var at := FiltersAreAllowlisted(keys, values, schema);
    forall field ensures field in at <==> field in fields {
      assert FilterKey(field) == "filter[" + field + "]";
      if field in fields {
        var i :| 0 <= i < |fields| && fields[i] == field;
        assert Get(values, FilterKey(field)) == vals[i];
      }
    }
    SameLength(at, fields);
    forall i | 0 <= i < |fields|
      ensures Filter(schema[fields[i]].column, vals[i], schema[fields[i]].isPartial) in filters
    {
      assert fields[i] in at;
      var j :| 0 <= j < |at| && at[j] == fields[i];
      assert FilterKey(fields[i]) == "filter[" + fields[i] + "]";
      assert filters[j] == Filter(schema[fields[i]].column, vals[i], schema[fields[i]].isPartial);
    }
    forall f | f in filters
      ensures exists i :: 0 <= i < |fields| && f == Filter(schema[fields[i]].column, vals[i], schema[fields[i]].isPartial)
    {
      var j :| 0 <= j < |filters| && filters[j] == f;
      assert at[j] in fields;
      var i :| 0 <= i < |fields| && fields[i] == at[j];
      assert FilterKey(fields[i]) == "filter[" + fields[i] + "]";
    }
  }
}

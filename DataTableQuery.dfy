/** The query-backed table (DataTableModelMixin and DataTableDataView):
    the request's column searches narrow the rows, the rows are ordered by
    one column with NULLs last and the primary key as tie-break, one page
    is cut out and every row of it is turned into JSON cells. The request
    is the dict of its GET or POST parameters; a queryset is a sequence of
    rows. */
module DataTableQuery {
  import opened Common
  import Utils
  import opened Sorting
  import opened DataTableRecords
  import opened DataTableConfig
  import opened DataTableSearch
  import opened DataTableOutput

  type Request = map<string, string>

  // ---------------------------------------------------------------------
  // Request keys

  function ColKey(c: nat): string
  {
    "columns[" + NatToString(c) + "][data]"
  }

  function SearchKey(c: nat): string
  {
    "columns[" + NatToString(c) + "][search][value]"
  }

  /** Position of the first ']' (the length when there is none). */
  function IndexOfClose(s: string): nat
    decreases |s|
  {
    if s == [] || s[0] == ']' then 0 else 1 + IndexOfClose(s[1..])
  }

  lemma {:induction false} IndexOfCloseAfterDigits(a: string, x: string)
    requires forall k :: 0 <= k < |a| ==> IsDigit(a[k])
    requires x != [] && x[0] == ']'
    ensures IndexOfClose(a + x) == |a|
    decreases |a|
  {
    if a == [] {
      assert a + x == x;
    } else {
      assert (a + x)[0] == a[0];
      assert (a + x)[1..] == a[1..] + x;
      IndexOfCloseAfterDigits(a[1..], x);
    }
  }

  /** Two digit strings followed by text starting with ']' split the same
      way. */
  lemma DigitsThenBracket(a: string, x: string, b: string, y: string)
    requires IsDigits(a) && IsDigits(b)
    requires x != [] && y != [] && x[0] == ']' && y[0] == ']'
    requires a + x == b + y
    ensures a == b && x == y
  {
    IndexOfCloseAfterDigits(a, x);
    IndexOfCloseAfterDigits(b, y);
    assert |a| == |b|;
    assert a == (a + x)[..|a|] && b == (b + y)[..|b|];
    assert x == (a + x)[|a|..] && y == (b + y)[|b|..];
  }

  lemma KeyParts(c: nat, d: nat, x: string, y: string)
    requires x != [] && y != [] && x[0] == ']' && y[0] == ']'
    requires "columns[" + NatToString(c) + x == "columns[" + NatToString(d) + y
    ensures c == d && x == y
  {
    var p := "columns[";
    assert p + NatToString(c) + x == p + (NatToString(c) + x);
    assert p + NatToString(d) + y == p + (NatToString(d) + y);
    assert (p + (NatToString(c) + x))[|p|..] == NatToString(c) + x;
    assert (p + (NatToString(d) + y))[|p|..] == NatToString(d) + y;
    DigitsThenBracket(NatToString(c), x, NatToString(d), y);
    NatToStringInjective(c, d);
  }

  /** The column keys of different columns differ, and never coincide with
      a search key. */
  lemma KeysDistinct(c: nat, d: nat)
    ensures ColKey(c) == ColKey(d) ==> c == d
    ensures SearchKey(c) == SearchKey(d) ==> c == d
    ensures ColKey(c) != SearchKey(d)
  {
    if ColKey(c) == ColKey(d) {
      KeyParts(c, d, "][data]", "][data]");
    }
    if SearchKey(c) == SearchKey(d) {
      KeyParts(c, d, "][search][value]", "][search][value]");
    }
    if ColKey(c) == SearchKey(d) {
      KeyParts(c, d, "][data]", "][search][value]");
    }
  }

  lemma {:induction false} ColKeysCard(n: nat)
    ensures |set j | 0 <= j < n :: ColKey(j)| == n
    decreases n
  {
    if n > 0 {
      ColKeysCard(n - 1);
      var s := set j | 0 <= j < n - 1 :: ColKey(j);
      assert (set j | 0 <= j < n :: ColKey(j)) == s + {ColKey(n - 1)};
      if ColKey(n - 1) in s {
        var j :| 0 <= j < n - 1 && ColKey(j) == ColKey(n - 1);
        KeysDistinct(j, n - 1);
      }
    }
  }

  /** A request holds at most as many column keys as it has keys. */
  lemma ColKeysBound(data: Request, col: nat)
    requires forall j :: 0 <= j <= col ==> ColKey(j) in data
    ensures col < |data|
  {
    ColKeysCard(col + 1);
    var s := set j | 0 <= j < col + 1 :: ColKey(j);
    assert s <= data.Keys;
    SubsetCard(s, data.Keys);
  }

  // ---------------------------------------------------------------------
  // get_filtered_data

  /** The search settings the view takes from the table description. */
  function SearchConfigOf(cfg: Config, suffix: string, booleanFields: set<string>): SearchConfig
  {
    SearchConfig(cfg.filters.regexEnabled, suffix, booleanFields, cfg.filters.searchTypes)
  }

  /** The filter of column `col`, none for an empty or missing search. */
  function ColumnStep(scfg: SearchConfig, data: Request, col: nat): Result<seq<QueryFilter>>
    requires ColKey(col) in data
  {
    var search := Get(data, SearchKey(col)).GetOr("");
    if search == "" then Ok([])
    else
      match QueryColumnFilter(scfg, data[ColKey(col)], search)
      case Ok(f) => Ok([f])
      case Err(e) => Err(e)
  }

  /** The filters of the columns from `col` up to the first missing
      columns[N][data]; the first failing column decides the error. */
  function ColumnFilters(scfg: SearchConfig, data: Request, col: nat): Result<seq<QueryFilter>>
    requires forall j :: 0 <= j < col ==> ColKey(j) in data
    decreases |data| - col
  {
    if ColKey(col) !in data then Ok([])
    else
      ColKeysBound(data, col);
      match ColumnStep(scfg, data, col)
      case Err(e) => Err(e)
      case Ok(fs) =>
        match ColumnFilters(scfg, data, col + 1)
        case Err(e) => Err(e)
        case Ok(rest) => Ok(fs + rest)
  }

  function Prepend(done: seq<QueryFilter>, r: Result<seq<QueryFilter>>): Result<seq<QueryFilter>>
  {
    match r
    case Err(e) => Err(e)
    case Ok(fs) => Ok(done + fs)
  }

  predicate AcceptsAll(fs: seq<QueryFilter>, row: Obj)
  {
    forall i :: 0 <= i < |fs| ==> QueryKeeps(fs[i], row)
  }

  function AcceptsFn(fs: seq<QueryFilter>): Obj -> bool
  {
    row => AcceptsAll(fs, row)
  }

  function KeepsFn(f: QueryFilter): Obj -> bool
  {
    row => QueryKeeps(f, row)
  }

  /** The rows every filter keeps, in their order. */
  function Narrowed(rows: seq<Obj>, fs: seq<QueryFilter>): seq<Obj>
  {
    Filter(rows, AcceptsFn(fs))
  }

  /** queryset.filter(...) or .exclude(...) for one filter. */
  function Narrow(rows: seq<Obj>, f: QueryFilter): seq<Obj>
  {
    Filter(rows, KeepsFn(f))
  }

  function FilteredRows(scfg: SearchConfig, data: Request, rows: seq<Obj>): Result<seq<Obj>>
  {
    match ColumnFilters(scfg, data, 0)
    case Err(e) => Err(e)
    case Ok(fs) => Ok(Narrowed(rows, fs))
  }

  /** One more column of the scan. */
  lemma ColumnFiltersStep(scfg: SearchConfig, data: Request, col: nat, done: seq<QueryFilter>)
    requires forall j :: 0 <= j <= col ==> ColKey(j) in data
    ensures Prepend(done, ColumnFilters(scfg, data, col)) ==
      match ColumnStep(scfg, data, col)
      case Err(e) => Err(e)
      case Ok(fs) => Prepend(done + fs, ColumnFilters(scfg, data, col + 1))
  {
    match ColumnStep(scfg, data, col) {
      case Err(e) =>
      case Ok(fs) =>
        match ColumnFilters(scfg, data, col + 1) {
          case Err(_) =>
          case Ok(rest) => assert done + (fs + rest) == (done + fs) + rest;
        }
    }
  }

  /** Narrowing once more is filtering by one more conjunct. */
  lemma NarrowedStep(rows: seq<Obj>, done: seq<QueryFilter>, f: QueryFilter)
    ensures Narrow(Narrowed(rows, done), f) == Narrowed(rows, done + [f])
  {
    FilterTwice(rows, AcceptsFn(done), KeepsFn(f));
    forall k | 0 <= k < |rows|
      ensures And(AcceptsFn(done), KeepsFn(f))(rows[k]) == AcceptsFn(done + [f])(rows[k])
    {
      var fs := done + [f];
      if AcceptsAll(fs, rows[k]) {
        assert fs[|done|] == f;
        forall i | 0 <= i < |done| ensures QueryKeeps(done[i], rows[k]) {
          assert fs[i] == done[i];
        }
      }
    }
    FilterExt(rows, And(AcceptsFn(done), KeepsFn(f)), AcceptsFn(done + [f]));
  }

  lemma NarrowedNone(rows: seq<Obj>)
    ensures Narrowed(rows, []) == rows
  {
    FilterAll(rows, AcceptsFn([]));
  }

  /** One column of the scan: an empty search moves on, a failing one
      decides the error, any other adds its filter. */
  lemma ScanStep(scfg: SearchConfig, data: Request, col: nat, done: seq<QueryFilter>)
    requires forall j :: 0 <= j <= col ==> ColKey(j) in data
    ensures col < |data|
    ensures var search := Get(data, SearchKey(col)).GetOr("");
      Prepend(done, ColumnFilters(scfg, data, col)) ==
        if search == "" then Prepend(done, ColumnFilters(scfg, data, col + 1))
        else match QueryColumnFilter(scfg, data[ColKey(col)], search)
          case Err(e) => Err(e)
          case Ok(f) => Prepend(done + [f], ColumnFilters(scfg, data, col + 1))
  {
    ColKeysBound(data, col);
    ColumnFiltersStep(scfg, data, col, done);
    assert done + [] == done;
  }

  /** One column of get_filtered_data's loop, with the rows narrowed so far. */
  lemma ScanAdvance(scfg: SearchConfig, data: Request, rows: seq<Obj>, col: nat, done: seq<QueryFilter>)
    requires forall j :: 0 <= j <= col ==> ColKey(j) in data
    requires ColumnFilters(scfg, data, 0) == Prepend(done, ColumnFilters(scfg, data, col))
    ensures col < |data|
    ensures var search := Get(data, SearchKey(col)).GetOr("");
      var f := QueryColumnFilter(scfg, data[ColKey(col)], search);
      (search == "" ==> ColumnFilters(scfg, data, 0) == Prepend(done, ColumnFilters(scfg, data, col + 1))) &&
      (search != "" && f.Err? ==> FilteredRows(scfg, data, rows) == Err(f.error)) &&
      (search != "" && f.Ok? ==>
        ColumnFilters(scfg, data, 0) == Prepend(done + [f.value], ColumnFilters(scfg, data, col + 1)) &&
        Narrow(Narrowed(rows, done), f.value) == Narrowed(rows, done + [f.value]))
  {
    ScanStep(scfg, data, col, done);
    var search := Get(data, SearchKey(col)).GetOr("");
    var f := QueryColumnFilter(scfg, data[ColKey(col)], search);
    if search != "" && f.Ok? {
      NarrowedStep(rows, done, f.value);
    }
  }

  /** The loop of get_filtered_data ends at the first missing column. */
  lemma ScanEnds(scfg: SearchConfig, data: Request, rows: seq<Obj>, col: nat, done: seq<QueryFilter>)
    requires forall j :: 0 <= j < col ==> ColKey(j) in data
    requires ColKey(col) !in data
    requires ColumnFilters(scfg, data, 0) == Prepend(done, ColumnFilters(scfg, data, col))
    ensures FilteredRows(scfg, data, rows) == Ok(Narrowed(rows, done))
  {
    assert done + [] == done;
  }

  /** get_filtered_data: walks columns[0], columns[1], ... while the
      column key is present and narrows the rows by each non-empty
      search. */
  method FilterData(scfg: SearchConfig, data: Request, rows: seq<Obj>) returns (r: Result<seq<Obj>>)
    ensures r == FilteredRows(scfg, data, rows)
  {
    var items := rows;
    var col := 0;
    ghost var done: seq<QueryFilter> := [];
    NarrowedNone(rows);
    match ColumnFilters(scfg, data, 0) {
      case Err(_) =>
      case Ok(fs) => assert [] + fs == fs;
    }
    while ColKey(col) in data
      invariant forall j :: 0 <= j < col ==> ColKey(j) in data
      invariant ColumnFilters(scfg, data, 0) == Prepend(done, ColumnFilters(scfg, data, col))
      invariant items == Narrowed(rows, done)
      decreases |data| - col
    {
      ScanAdvance(scfg, data, rows, col, done);
      var field := data[ColKey(col)];
      var search := Get(data, SearchKey(col)).GetOr("");
      if search != "" {
        var f := QueryColumnFilter(scfg, field, search);
        if f.Err? {
          return Err(f.error);
        }
        items := Narrow(items, f.value);
        done := done + [f.value];
      }
      col := col + 1;
    }
    ScanEnds(scfg, data, rows, col, done);
    r := Ok(items);
  }

  /** Filters are conjunctive: each kept row passes every column search,
      every row passing them all is kept, and the order is unchanged. */
  lemma FilteredRowsConjunctive(scfg: SearchConfig, data: Request, rows: seq<Obj>, a: seq<Obj>, b: seq<Obj>)
    requires FilteredRows(scfg, data, rows).Ok?
    requires rows == a + b
    ensures var fs := ColumnFilters(scfg, data, 0).value;
      var kept := FilteredRows(scfg, data, rows).value;
      |kept| <= |rows| &&
      (forall row :: row in kept <==> row in rows && AcceptsAll(fs, row)) &&
      kept == Narrowed(a, fs) + Narrowed(b, fs)
  {
    var fs := ColumnFilters(scfg, data, 0).value;
    FilterConcat(a, b, row => AcceptsAll(fs, row));
  }

  /** Columns with an empty or missing search contribute nothing. */
  lemma {:induction false} EmptySearchesAddNothing(scfg: SearchConfig, data: Request, col: nat)
    requires forall j :: 0 <= j < col ==> ColKey(j) in data
    requires forall j: nat :: j >= col && SearchKey(j) in data ==> data[SearchKey(j)] == ""
    ensures ColumnFilters(scfg, data, col) == Ok([])
    decreases |data| - col
  {
    if ColKey(col) in data {
      ColKeysBound(data, col);
      assert Get(data, SearchKey(col)).GetOr("") == "";
      assert ColumnStep(scfg, data, col) == Ok([]);
      EmptySearchesAddNothing(scfg, data, col + 1);
      var none: seq<QueryFilter> := [];
      assert none + none == none;
      assert ColumnFilters(scfg, data, col) == Ok(none + none);
    }
  }

  /** Two requests that agree on column `col` and on every later column
      agree on the filters from `col` on. */
  lemma ColumnFiltersAgree(scfg: SearchConfig, a: Request, b: Request, col: nat)
    requires forall j :: 0 <= j < col ==> ColKey(j) in a && ColKey(j) in b
    requires (ColKey(col) in a) == (ColKey(col) in b)
    requires ColKey(col) in a ==>
      a[ColKey(col)] == b[ColKey(col)] && Get(a, SearchKey(col)) == Get(b, SearchKey(col)) &&
      ColumnFilters(scfg, a, col + 1) == ColumnFilters(scfg, b, col + 1)
    ensures ColumnFilters(scfg, a, col) == ColumnFilters(scfg, b, col)
  {
    if ColKey(col) in a {
      assert ColumnStep(scfg, a, col) == ColumnStep(scfg, b, col);
    }
  }

  /** The scan stops at the first missing columns[N][data]: keys of a
      later column do not change the filters. */
  lemma {:induction false} ScanStopsAtGap(scfg: SearchConfig, data: Request, n: nat, m: nat,
                                          field: string, search: string, col: nat)
    requires col <= n < m
    requires forall j :: 0 <= j < n ==> ColKey(j) in data
    requires ColKey(n) !in data
    ensures var later := data[ColKey(m) := field][SearchKey(m) := search];
      (forall j :: 0 <= j < col ==> ColKey(j) in later) &&
      ColumnFilters(scfg, later, col) == ColumnFilters(scfg, data, col)
    decreases n - col
  {
    var later := data[ColKey(m) := field][SearchKey(m) := search];
    KeysDistinct(col, m);
    KeysDistinct(m, col);
    assert forall j :: 0 <= j < col ==> ColKey(j) in later;
    if col < n {
      ScanStopsAtGap(scfg, data, n, m, field, search, col + 1);
    }
    ColumnFiltersAgree(scfg, later, data, col);
  }

  // ---------------------------------------------------------------------
  // get_order_data

  /** int(data.get(key, default)); a text int() refuses is a ValueError. */
  function IntParam(data: Request, key: string, default: int): (r: Result<int>)
    ensures key !in data ==> r == Ok(default)
    ensures key in data ==> (r.Ok? <==> ParseInt(data[key]).Some?)
    ensures r.Err? ==> r.error == "ValueError"
  {
    if key !in data then Ok(default)
    else
      match ParseInt(data[key])
      case Some(n) => Ok(n)
      case None => Err("ValueError")
  }

  /** int(data.get("order[0][column]") or 0) */
  function OrderColumn(data: Request): Result<int>
  {
    if "order[0][column]" !in data || data["order[0][column]"] == "" then Ok(0)
    else IntParam(data, "order[0][column]", 0)
  }

  predicate OrderAscending(data: Request)
  {
    Get(data, "order[0][dir]").GetOr("asc") == "asc"
  }

  /** field_names[order_col - 1], with Python's negative indices. The
      path is taken to name a model field: Django refuses one that does
      not with a FieldError, which the ordering below does not raise. */
  function OrderPath(cfg: Config, data: Request): Result<string>
  {
    match OrderColumn(data)
    case Err(e) => Err(e)
    case Ok(c) =>
      match PyIndex(cfg.fieldNames, c - 1)
      case Some(p) => Ok(p)
      case None => Err("IndexError")
  }

  /** Column c (1-based) orders by the c-th field name; the default 0
      orders by the last one. */
  lemma OrderPathSelects(cfg: Config, data: Request, c: nat)
    requires cfg.fieldNames != []
    requires "order[0][column]" in data && data["order[0][column]"] == NatToString(c)
    requires c <= |cfg.fieldNames|
    ensures c >= 1 ==> OrderPath(cfg, data) == Ok(cfg.fieldNames[c - 1])
    ensures c == 0 ==> OrderPath(cfg, data) == Ok(cfg.fieldNames[|cfg.fieldNames| - 1])
  {
    ParseIntOfString(c);
    assert NatToString(c) != "" by {
      assert IsDigits(NatToString(c));
    }
  }

  lemma OrderPathDefault(cfg: Config, data: Request)
    requires cfg.fieldNames != [] && "order[0][column]" !in data
    ensures OrderPath(cfg, data) == Ok(cfg.fieldNames[|cfg.fieldNames| - 1])
  {
  }

  function Rank(c: Cell): nat
  {
    match c
    case Null => 0
    case Int(_) => 1
    case Str(_) => 2
    case Bool(_) => 3
  }

  /** The database's strict order on column values of one type. */
  predicate CellLt(a: Cell, b: Cell)
  {
    if Rank(a) != Rank(b) then Rank(a) < Rank(b)
    else
      match a
      case Int(x) => x < b.i
      case Str(x) => Utils.StrLt(x, b.s)
      case Bool(x) => !x && b.b
      case Null => false
  }

  lemma CellLtStrict(a: Cell, b: Cell, c: Cell)
    ensures !CellLt(a, a)
    ensures a != b ==> CellLt(a, b) || CellLt(b, a)
    ensures CellLt(a, b) ==> !CellLt(b, a)
    ensures CellLt(a, b) && CellLt(b, c) ==> CellLt(a, c)
  {
    if a.Str? {
      Utils.StrLtIrreflexive(a.s);
      if b.Str? {
        Utils.StrLtTotal(a.s, b.s);
        if Utils.StrLt(a.s, b.s) {
          Utils.StrLtAsymmetric(a.s, b.s);
        }
        if c.Str? && Utils.StrLt(a.s, b.s) && Utils.StrLt(b.s, c.s) {
          Utils.StrLtTransitive(a.s, b.s, c.s);
        }
      }
    }
  }

  /** order_by(F(path).asc(nulls_last=True), "pk") or its desc() form. */
  predicate RowLe(path: string, asc: bool, a: Obj, b: Obj)
  {
    var ka := LookupPath(a, path);
    var kb := LookupPath(b, path);
    if ka == kb then a.pk <= b.pk
    else if ka == Null then false
    else if kb == Null then true
    else if asc then CellLt(ka, kb) else CellLt(kb, ka)
  }

  function OrderLe(path: string, asc: bool): (Obj, Obj) -> bool
  {
    (a, b) => RowLe(path, asc, a, b)
  }

  lemma RowLeTransitive(path: string, asc: bool, a: Obj, b: Obj, c: Obj)
    requires RowLe(path, asc, a, b) && RowLe(path, asc, b, c)
    ensures RowLe(path, asc, a, c)
  {
    var ka, kb, kc := LookupPath(a, path), LookupPath(b, path), LookupPath(c, path);
    CellLtStrict(ka, kb, kc);
    CellLtStrict(kc, kb, ka);
    CellLtStrict(ka, kc, kb);
    CellLtStrict(kb, ka, kc);
  }

  lemma OrderLeIsPreorder(path: string, asc: bool)
    ensures Total(OrderLe(path, asc)) && Transitive(OrderLe(path, asc))
  {
    var le := OrderLe(path, asc);
    forall a, b ensures le(a, b) || le(b, a) {
      CellLtStrict(LookupPath(a, path), LookupPath(b, path), LookupPath(b, path));
    }
    forall a, b, c | le(a, b) && le(b, c) ensures le(a, c) {
      RowLeTransitive(path, asc, a, b, c);
    }
  }

  function OrderRows(cfg: Config, data: Request, rows: seq<Obj>): Result<seq<Obj>>
  {
    match OrderPath(cfg, data)
    case Err(e) => Err(e)
    case Ok(p) => Ok(SortBy(rows, OrderLe(p, OrderAscending(data))))
  }

  /** The ordered rows are a permutation; rows with a NULL value come last
      in both directions, the others follow the value (ascending or
      descending), and equal values follow the primary key. */
  lemma OrderRowsSorted(cfg: Config, data: Request, rows: seq<Obj>)
    requires OrderRows(cfg, data, rows).Ok?
    ensures var s := OrderRows(cfg, data, rows).value;
      var p := OrderPath(cfg, data).value;
      multiset(s) == multiset(rows) &&
      (forall i, j :: 0 <= i < j < |s| && LookupPath(s[i], p) == Null ==> LookupPath(s[j], p) == Null) &&
      (forall i, j :: 0 <= i < j < |s| && LookupPath(s[i], p) == LookupPath(s[j], p) ==> s[i].pk <= s[j].pk) &&
      (forall i, j :: 0 <= i < j < |s| && LookupPath(s[j], p) != Null && LookupPath(s[i], p) != LookupPath(s[j], p) ==>
        if OrderAscending(data) then CellLt(LookupPath(s[i], p), LookupPath(s[j], p))
        else CellLt(LookupPath(s[j], p), LookupPath(s[i], p)))
  {
    var p := OrderPath(cfg, data).value;
    var le := OrderLe(p, OrderAscending(data));
    OrderLeIsPreorder(p, OrderAscending(data));
    SortBySorted(rows, le);
    var s := OrderRows(cfg, data, rows).value;
    assert forall i, j :: 0 <= i < j < |s| ==> RowLe(p, OrderAscending(data), s[i], s[j]);
  }

  // ---------------------------------------------------------------------
  // get_data_table_data

  /** queryset[start:start + length] unless length is -1; a queryset
      refuses negative bounds. */
  function Page<T>(data: Request, rows: seq<T>): Result<seq<T>>
  {
    match IntParam(data, "length", 10)
    case Err(e) => Err(e)
    case Ok(length) =>
      if length == -1 then Ok(rows)
      else
        match IntParam(data, "start", 0)
        case Err(e) => Err(e)
        case Ok(start) =>
          if start < 0 || start + length < 0 then Err("NegativeIndexing")
          else Ok(PySlice(rows, start, start + length))
  }

  /** A page is the block of at most `length` rows from `start` on. */
  lemma PageIsBlock<T>(data: Request, rows: seq<T>, length: int, start: int)
    requires IntParam(data, "length", 10) == Ok(length) && length >= 0
    requires IntParam(data, "start", 0) == Ok(start) && start >= 0
    ensures Page(data, rows).Ok?
    ensures var lo := if start < |rows| then start else |rows|;
      var n := if length < |rows| - lo then length else |rows| - lo;
      Page(data, rows).value == rows[lo..lo + n]
  {
  }

  lemma PageAll<T>(data: Request, rows: seq<T>)
    requires IntParam(data, "length", 10) == Ok(-1)
    ensures Page(data, rows) == Ok(rows)
  {
  }

  function OutputPath(cfg: Config, name: string): string
  {
    if name in cfg.fieldOutputs then cfg.fieldOutputs[name] else name
  }

  /** The template context of a row: _get_field_name for every field. */
  function QueryFields(cfg: Config, item: Obj): map<string, Ctx>
  {
    map n | n in cfg.fieldNames :: CVal(GetFieldName(item, n))
  }

  function QueryFieldOut(cfg: Config, item: Obj, name: string): Out
  {
    FieldTemplate(cfg.fieldTemplates, name, Dash(GetFieldValue(OutputPath(cfg, name), item)), QueryFields(cfg, item))
  }

  /** The row after the field loop has run over `names`. */
  function FieldCells(cfg: Config, item: Obj, base: Row, names: seq<string>): Row
    decreases |names|
  {
    if names == [] then base
    else
      var n := names[|names| - 1];
      FieldCells(cfg, item, base, names[..|names| - 1])[n := QueryFieldOut(cfg, item, n)]
  }

  lemma FieldCellsSnoc(cfg: Config, item: Obj, base: Row, names: seq<string>, n: string)
    ensures FieldCells(cfg, item, base, names + [n]) ==
      FieldCells(cfg, item, base, names)[n := QueryFieldOut(cfg, item, n)]
  {
    assert (names + [n])[..|names|] == names;
  }

  /** Every field gets its cell; the other cells are kept. */
  lemma {:induction false} FieldCellsContent(cfg: Config, item: Obj, base: Row, names: seq<string>)
    ensures forall k :: k in FieldCells(cfg, item, base, names) <==> k in base || k in names
    ensures forall n :: n in names ==> FieldCells(cfg, item, base, names)[n] == QueryFieldOut(cfg, item, n)
    ensures forall k :: k in base && k !in names ==> FieldCells(cfg, item, base, names)[k] == base[k]
    decreases |names|
  {
    if names != [] {
      var init, last := names[..|names| - 1], names[|names| - 1];
      FieldCellsContent(cfg, item, base, init);
      assert names == init + [last];
      FieldCellsSnoc(cfg, item, base, init, last);
    }
  }

  /** getattr(item, row_id) when a row_id is configured. */
  function RowIdValue(cfg: Config, item: Obj): Result<Option<PyVal>>
  {
    if cfg.rowId.Some? && cfg.rowId.value != "" then
      match GetAttr(PObj(item), cfg.rowId.value)
      case Some(v) => Ok(Some(v))
      case None => Err("AttributeError")
    else Ok(None)
  }

  function RowBase(rowId: Option<PyVal>, index: nat): Row
  {
    map["DT_RowId" := OText(RowIdText(rowId, index)), "add" := OText("")]
  }

  /** The getattr chain of a url id: each step reads from the value so far
      while that is truthy and from the row again otherwise. */
  function WalkIds(item: Obj, segs: seq<string>, last: PyVal): Result<PyVal>
    decreases |segs|
  {
    if segs == [] then Ok(last)
    else
      var from := if Truthy(last) then last else PObj(item);
      match GetAttr(from, segs[0])
      case None => Err("AttributeError")
      case Some(v) => WalkIds(item, segs[1..], v)
  }

  /** The id a url item of a model row links to, and the keyword argument
      (the last segment of the id path) it is passed as. */
  function QueryId(item: Obj, id: string): Result<(string, PyVal)>
  {
    var segs := Split(id, "__");
    match WalkIds(item, segs, PCell(Null))
    case Err(e) => Err(e)
    case Ok(last) => Ok((segs[|segs| - 1], if Truthy(last) then last else PCell(Int(item.pk))))
  }

  function QueryIdOf(item: Obj): IdOf
  {
    id => QueryId(item, id)
  }

  /** The default id "pk" links to the primary key. */
  lemma QueryIdPk(item: Obj)
    requires "pk" !in item.attrs
    ensures QueryId(item, "pk") == Ok(("pk", PCell(Int(item.pk))))
  {
    assert Split("k", "__") == ["k"];
    assert "pk"[..2] == "pk";
    assert "pk"[0] != "__"[0];
    assert "pk"[1..] == "k";
    assert "pk"[0] == 'p';
    assert ['p'] + "k" == "pk";
    assert Split("pk", "__") == ["pk"];
    assert WalkIds(item, [], PCell(Int(item.pk))) == Ok(PCell(Int(item.pk)));
    assert WalkIds(item, ["pk"], PCell(Null)) == Ok(PCell(Int(item.pk)));
  }

  /** Through a foreign key the id is read on the related row; through a
      NULL foreign key the next step is read on the row itself. */
  lemma QueryIdThroughRelation(item: Obj, rel: string, name: string)
    requires rel in item.attrs
    ensures item.attrs[rel].Ref? ==>
      WalkIds(item, [rel, name], PCell(Null)) == WalkIds(item, [name], PObj(item.attrs[rel].o))
    ensures item.attrs[rel] == Scalar(Null) ==>
      WalkIds(item, [rel, name], PCell(Null)) == WalkIds(item, [name], PCell(Null))
  {
    assert [rel, name][1..] == [name];
  }

  /** One JSON row of the page. */
  function QueryRow(cfg: Config, item: Obj, index: nat): Result<Row>
  {
    match RowIdValue(cfg, item)
    case Err(e) => Err(e)
    case Ok(rv) =>
      Actions(FieldCells(cfg, item, RowBase(rv, index), cfg.fieldNames), cfg.urls, cfg.urls.items,
              QueryIdOf(item), Ok(QueryFields(cfg, item)))
  }

  /** The part of get_data_table_data that fills one row. */
  method RowValues(cfg: Config, item: Obj, index: nat) returns (r: Result<Row>)
    ensures r == QueryRow(cfg, item, index)
  {
    var rv := RowIdValue(cfg, item);
    if rv.Err? {
      return Err(rv.error);
    }
    var itemValues := FieldValues(cfg, item, RowBase(rv.value, index));
    r := AddItemActions(itemValues, cfg.urls, QueryIdOf(item), Ok(QueryFields(cfg, item)));
  }

  /** The loop over field_names that fills the field cells of a row. */
  method FieldValues(cfg: Config, item: Obj, base: Row) returns (itemValues: Row)
    ensures itemValues == FieldCells(cfg, item, base, cfg.fieldNames)
  {
    itemValues := base;
    var i := 0;
    assert cfg.fieldNames[..0] == [];
    while i < |cfg.fieldNames|
      invariant 0 <= i <= |cfg.fieldNames|
      invariant itemValues == FieldCells(cfg, item, base, cfg.fieldNames[..i])
    {
      var name := cfg.fieldNames[i];
      assert cfg.fieldNames[..i + 1] == cfg.fieldNames[..i] + [name];
      FieldCellsSnoc(cfg, item, base, cfg.fieldNames[..i], name);
      itemValues := itemValues[name := QueryFieldOut(cfg, item, name)];
      i := i + 1;
    }
    assert cfg.fieldNames[..i] == cfg.fieldNames;
  }

  function QueryRowOf(cfg: Config): (Obj, nat) -> Result<Row>
  {
    (item: Obj, index: nat) => QueryRow(cfg, item, index)
  }

  function QueryData(cfg: Config, data: Request, rows: seq<Obj>): Result<Envelope>
  {
    match Page(data, rows)
    case Err(e) => Err(e)
    case Ok(page) =>
      match RowsOut(QueryRowOf(cfg), page)
      case Err(e) => Err(e)
      case Ok(out) => Ok(Envelope(out, Get(data, "draw"), |rows|, |rows|))
  }

  /** get_data_table_data */
  method GetDataTableData(cfg: Config, data: Request, rows: seq<Obj>) returns (r: Result<Envelope>)
    ensures r == QueryData(cfg, data, rows)
  {
    var total := |rows|;
    var page := Page(data, rows);
    if page.Err? {
      return Err(page.error);
    }
    var items := page.value;
    var dataList: seq<Row> := [];
    var index := 0;
    while index < |items|
      invariant 0 <= index <= |items|
      invariant RowsOut(QueryRowOf(cfg), items[..index]) == Ok(dataList)
    {
      var row := RowValues(cfg, items[index], index);
      assert QueryRowOf(cfg)(items[index], index) == row;
      RowsOutStep(QueryRowOf(cfg), items, index);
      if row.Err? {
        RowsOutErr(QueryRowOf(cfg), items, index + 1);
        return Err(row.error);
      }
      dataList := dataList + [row.value];
      index := index + 1;
    }
    assert items[..index] == items;
    r := Ok(Envelope(dataList, Get(data, "draw"), total, total));
  }

  // ---------------------------------------------------------------------
  // DataTableDataView.get_context_data

  function QueryResponse(scfg: SearchConfig, cfg: Config, data: Request, rows: seq<Obj>): Result<Envelope>
  {
    match FilteredRows(scfg, data, rows)
    case Err(e) => Err(e)
    case Ok(kept) =>
      match OrderRows(cfg, data, kept)
      case Err(e) => Err(e)
      case Ok(ordered) => QueryData(cfg, data, ordered)
  }

  /** Filter, order, then one page of rows. */
  method GetContextData(scfg: SearchConfig, cfg: Config, data: Request, rows: seq<Obj>)
    returns (r: Result<Envelope>)
    ensures r == QueryResponse(scfg, cfg, data, rows)
  {
    var kept := FilterData(scfg, data, rows);
    if kept.Err? {
      return Err(kept.error);
    }
    var ordered := OrderRows(cfg, data, kept.value);
    if ordered.Err? {
      return Err(ordered.error);
    }
    r := GetDataTableData(cfg, data, ordered.value);
  }

  lemma PageLength<T>(data: Request, rows: seq<T>)
    requires Page(data, rows).Ok?
    ensures |Page(data, rows).value| <= |rows|
  {
  }

  lemma QueryDataCounts(cfg: Config, data: Request, rows: seq<Obj>)
    requires QueryData(cfg, data, rows).Ok?
    ensures var env := QueryData(cfg, data, rows).value;
      env.recordsTotal == env.recordsFiltered == |rows| &&
      |env.data| == |Page(data, rows).value| <= |rows| &&
      env.draw == Get(data, "draw")
  {
    PageLength(data, rows);
    RowsOutShape(QueryRowOf(cfg), Page(data, rows).value);
  }

  /** recordsTotal and recordsFiltered both count the filtered rows before
      the page is cut out; the page has at most that many rows. */
  lemma QueryResponseCounts(scfg: SearchConfig, cfg: Config, data: Request, rows: seq<Obj>)
    requires QueryResponse(scfg, cfg, data, rows).Ok?
    ensures var env := QueryResponse(scfg, cfg, data, rows).value;
      env.recordsTotal == env.recordsFiltered == |FilteredRows(scfg, data, rows).value| &&
      env.recordsTotal <= |rows| &&
      |env.data| <= env.recordsTotal &&
      env.draw == Get(data, "draw")
  {
    var kept := FilteredRows(scfg, data, rows).value;
    var ordered := OrderRows(cfg, data, kept).value;
    assert |ordered| == |kept|;
    QueryDataCounts(cfg, data, ordered);
  }

  /** Cells of a row: the id, the empty add cell, the field cells and the
      url items' renderings, where the names do not collide. */
  lemma QueryRowShape(cfg: Config, item: Obj, index: nat)
    requires QueryRow(cfg, item, index).Ok?
    requires "DT_RowId" !in cfg.fieldNames && "add" !in cfg.fieldNames
    requires forall u :: u in cfg.urls.items ==> u.fieldName != "DT_RowId" && u.fieldName != "add"
    ensures var row := QueryRow(cfg, item, index).value;
      var rv := RowIdValue(cfg, item).value;
      "DT_RowId" in row && row["DT_RowId"] == OText(RowIdText(rv, index)) &&
      "add" in row && row["add"] == OText("") &&
      (forall n :: n in cfg.fieldNames && (forall u :: u in cfg.urls.items ==> u.fieldName != n) ==>
        n in row && row[n] == QueryFieldOut(cfg, item, n)) &&
      (forall u :: u in cfg.urls.items ==> u.fieldName in row && row[u.fieldName].ORendered?)
  {
    var rv := RowIdValue(cfg, item).value;
    var base := RowBase(rv, index);
    var cells := FieldCells(cfg, item, base, cfg.fieldNames);
    assert "DT_RowId" in cells && cells["DT_RowId"] == OText(RowIdText(rv, index)) &&
           "add" in cells && cells["add"] == OText("") by {
      assert "DT_RowId" in base && base["DT_RowId"] == OText(RowIdText(rv, index));
      assert "add" in base && base["add"] == OText("");
      FieldCellsContent(cfg, item, base, cfg.fieldNames);
    }
    assert forall n :: n in cfg.fieldNames ==> n in cells && cells[n] == QueryFieldOut(cfg, item, n) by {
      FieldCellsContent(cfg, item, base, cfg.fieldNames);
    }
    ActionsCoverAllItems(cells, cfg.urls, cfg.urls.items, QueryIdOf(item), Ok(QueryFields(cfg, item)));
  }

  /** A field cell without a template is never None or "". */
  lemma PlainCellNeverEmpty(cfg: Config, item: Obj, name: string)
    requires name !in cfg.fieldTemplates || cfg.fieldTemplates[name] == ""
    ensures QueryFieldOut(cfg, item, name).OVal?
    ensures QueryFieldOut(cfg, item, name).v != PCell(Null)
    ensures QueryFieldOut(cfg, item, name).v != PCell(Str(""))
  {
  }
}

/** The list-backed table (DataTableListMixin and DataTableListDataView):
    the rows are dicts from column name to value, searched with substring
    tests on their lower-cased text, ordered with Python's sorted() on one
    column and cut with list slicing. Missing keys and values that Python
    cannot compare raise, as in the view. */
module DataTableList {
  import opened Common
  import Utils
  import opened Sorting
  import opened DataTableRecords
  import opened DataTableConfig
  import opened DataTableSearch
  import opened DataTableOutput
  import opened DataTableQuery

  // ---------------------------------------------------------------------
  // get_filtered_data

  /** One non-empty column search: the column, whether it is in
      regex_enabled, and the search text. */
  datatype ListSearch = ListSearch(field: string, regex: bool, search: string)

  predicate SearchKeeps(s: ListSearch, item: ListItem)
  {
    s.field in item && ListKeeps(s.regex, item[s.field], s.search)
  }

  function SearchKeepsFn(s: ListSearch): ListItem -> bool
  {
    item => SearchKeeps(s, item)
  }

  /** The loop over the items for one search: an item without the column
      is a KeyError, the others are kept when the search keeps them. */
  function NarrowList(items: seq<ListItem>, s: ListSearch): Result<seq<ListItem>>
  {
    if forall i :: 0 <= i < |items| ==> s.field in items[i] then Ok(Filter(items, SearchKeepsFn(s)))
    else Err("KeyError")
  }

  /** The search of column `col`, none for an empty or missing search. */
  function ColumnSearch(regexEnabled: seq<string>, data: Request, col: nat): Option<ListSearch>
    requires ColKey(col) in data
  {
    var search := Get(data, SearchKey(col)).GetOr("");
    if search == "" then None
    else Some(ListSearch(data[ColKey(col)], data[ColKey(col)] in regexEnabled, search))
  }

  /** The items left after the columns from `col` on have narrowed them. */
  function ListFiltered(regexEnabled: seq<string>, data: Request, col: nat, items: seq<ListItem>)
    : Result<seq<ListItem>>
    requires forall j :: 0 <= j < col ==> ColKey(j) in data
    decreases |data| - col
  {
    if ColKey(col) !in data then Ok(items)
    else
      ColKeysBound(data, col);
      match ColumnSearch(regexEnabled, data, col)
      case None => ListFiltered(regexEnabled, data, col + 1, items)
      case Some(s) =>
        match NarrowList(items, s)
        case Err(e) => Err(e)
        case Ok(next) => ListFiltered(regexEnabled, data, col + 1, next)
  }

  /** The searches of the columns from `col` on. */
  function ListSearches(regexEnabled: seq<string>, data: Request, col: nat): seq<ListSearch>
    requires forall j :: 0 <= j < col ==> ColKey(j) in data
    decreases |data| - col
  {
    if ColKey(col) !in data then []
    else
      ColKeysBound(data, col);
      match ColumnSearch(regexEnabled, data, col)
      case None => ListSearches(regexEnabled, data, col + 1)
      case Some(s) => [s] + ListSearches(regexEnabled, data, col + 1)
  }

  predicate KeepsAll(ss: seq<ListSearch>, item: ListItem)
  {
    forall i :: 0 <= i < |ss| ==> SearchKeeps(ss[i], item)
  }

  function KeepsAllFn(ss: seq<ListSearch>): ListItem -> bool
  {
    item => KeepsAll(ss, item)
  }

  lemma NarrowStep(items: seq<ListItem>, i: nat, s: ListSearch)
    requires i < |items|
    ensures Filter(items[..i + 1], SearchKeepsFn(s)) ==
      Filter(items[..i], SearchKeepsFn(s)) + (if SearchKeepsFn(s)(items[i]) then [items[i]] else [])
  {
    assert items[..i + 1] == items[..i] + [items[i]];
    FilterSnoc(items[..i], items[i], SearchKeepsFn(s));
  }

  /** The inner loop of get_filtered_data. */
  method NarrowItems(items: seq<ListItem>, s: ListSearch) returns (r: Result<seq<ListItem>>)
    ensures r == NarrowList(items, s)
  {
    var filtered: seq<ListItem> := [];
    var i := 0;
    while i < |items|
      invariant 0 <= i <= |items|
      invariant forall j :: 0 <= j < i ==> s.field in items[j]
      invariant filtered == Filter(items[..i], SearchKeepsFn(s))
    {
      var item := items[i];
      if s.field !in item {
        assert !(s.field in items[i]);
        return Err("KeyError");
      }
      assert forall j :: 0 <= j < i + 1 ==> s.field in items[j];
      NarrowStep(items, i, s);
      if SearchKeeps(s, item) {
        filtered := filtered + [item];
      }
      i := i + 1;
    }
    assert items[..i] == items;
    r := Ok(filtered);
  }

  /** get_filtered_data of the list view. */
  method ListFilterData(regexEnabled: seq<string>, data: Request, items: seq<ListItem>)
    returns (r: Result<seq<ListItem>>)
    ensures r == ListFiltered(regexEnabled, data, 0, items)
  {
    var current := items;
    var col := 0;
    while ColKey(col) in data
      invariant forall j :: 0 <= j < col ==> ColKey(j) in data
      invariant ListFiltered(regexEnabled, data, 0, items) == ListFiltered(regexEnabled, data, col, current)
      decreases |data| - col
    {
      ColKeysBound(data, col);
      var field := data[ColKey(col)];
      var search := Get(data, SearchKey(col)).GetOr("");
      if search != "" {
        var next := NarrowItems(current, ListSearch(field, field in regexEnabled, search));
        if next.Err? {
          return Err(next.error);
        }
        current := next.value;
      }
      col := col + 1;
    }
    r := Ok(current);
  }

  lemma KeepsAllCons(s: ListSearch, rest: seq<ListSearch>, item: ListItem)
    ensures KeepsAll([s] + rest, item) == (SearchKeeps(s, item) && KeepsAll(rest, item))
  {
    var ss := [s] + rest;
    if SearchKeeps(s, item) && KeepsAll(rest, item) {
      forall i | 0 <= i < |ss| ensures SearchKeeps(ss[i], item) {
        if i > 0 {
          assert ss[i] == rest[i - 1];
        }
      }
    }
    if KeepsAll(ss, item) {
      assert ss[0] == s;
      forall i | 0 <= i < |rest| ensures SearchKeeps(rest[i], item) {
        assert ss[i + 1] == rest[i];
      }
    }
  }

  /** The searches are conjunctive and keep the order: the filtered items
      are exactly the items every column search keeps. */
  lemma {:induction false} ListFilteredConjunctive(regexEnabled: seq<string>, data: Request, col: nat,
                                                   items: seq<ListItem>)
    requires forall j :: 0 <= j < col ==> ColKey(j) in data
    requires ListFiltered(regexEnabled, data, col, items).Ok?
    ensures ListFiltered(regexEnabled, data, col, items).value
         == Filter(items, KeepsAllFn(ListSearches(regexEnabled, data, col)))
    decreases |data| - col
  {
    if ColKey(col) !in data {
      FilterAll(items, KeepsAllFn([]));
    } else {
      ColKeysBound(data, col);
      match ColumnSearch(regexEnabled, data, col) {
        case None =>
          ListFilteredConjunctive(regexEnabled, data, col + 1, items);
        case Some(s) =>
          var next := NarrowList(items, s).value;
          var rest := ListSearches(regexEnabled, data, col + 1);
          ListFilteredConjunctive(regexEnabled, data, col + 1, next);
          FilterTwice(items, SearchKeepsFn(s), KeepsAllFn(rest));
          forall k | 0 <= k < |items|
            ensures And(SearchKeepsFn(s), KeepsAllFn(rest))(items[k]) == KeepsAllFn([s] + rest)(items[k])
          {
            KeepsAllCons(s, rest, items[k]);
          }
          FilterExt(items, And(SearchKeepsFn(s), KeepsAllFn(rest)), KeepsAllFn([s] + rest));
      }
    }
  }

  /** When every item has every searched column, filtering raises nothing. */
  lemma {:induction false} ListFilteredNoKeyError(regexEnabled: seq<string>, data: Request, col: nat,
                                                  items: seq<ListItem>)
    requires forall j :: 0 <= j < col ==> ColKey(j) in data
    requires forall i, s :: 0 <= i < |items| && s in ListSearches(regexEnabled, data, col) ==> s.field in items[i]
    ensures ListFiltered(regexEnabled, data, col, items).Ok?
    decreases |data| - col
  {
    if ColKey(col) in data {
      ColKeysBound(data, col);
      match ColumnSearch(regexEnabled, data, col) {
        case None =>
          ListFilteredNoKeyError(regexEnabled, data, col + 1, items);
        case Some(s) =>
          var rest := ListSearches(regexEnabled, data, col + 1);
          assert s in [s] + rest;
          var next := NarrowList(items, s).value;
          forall i, t | 0 <= i < |next| && t in rest ensures t.field in next[i] {
            assert next[i] in next;
            var j :| 0 <= j < |items| && items[j] == next[i];
            assert t in [s] + rest;
          }
          ListFilteredNoKeyError(regexEnabled, data, col + 1, next);
      }
    }
  }

  // ---------------------------------------------------------------------
  // get_order_data

  predicate IsNum(c: Cell)
  {
    c.Int? || c.Bool?
  }

  /** bool compares as the int 0 or 1. */
  function Num(c: Cell): int
    requires IsNum(c)
  {
    if c.Int? then c.i else if c.b then 1 else 0
  }

  function KeyRank(c: Cell): nat
  {
    if c.Null? then 0 else if IsNum(c) then 1 else 2
  }

  /** Python's `<` on two numbers or on two strings; the other pairs raise
      TypeError in Python and are only ranked here, so that the order is
      total. */
  predicate KeyLt(a: Cell, b: Cell)
  {
    if IsNum(a) && IsNum(b) then Num(a) < Num(b)
    else if a.Str? && b.Str? then Utils.StrLt(a.s, b.s)
    else KeyRank(a) < KeyRank(b)
  }

  /** KeyLt is a strict weak order. */
  lemma KeyLtStrictWeak(a: Cell, b: Cell, c: Cell)
    ensures !KeyLt(a, a)
    ensures KeyLt(a, b) ==> !KeyLt(b, a)
    ensures !KeyLt(b, a) && !KeyLt(c, b) ==> !KeyLt(c, a)
  {
    if a.Str? {
      Utils.StrLtIrreflexive(a.s);
    }
    if a.Str? && b.Str? {
      Utils.StrLtTotal(a.s, b.s);
      if Utils.StrLt(a.s, b.s) {
        Utils.StrLtAsymmetric(a.s, b.s);
      }
    }
    if a.Str? && b.Str? && c.Str? {
      Utils.StrLtTotal(a.s, b.s);
      Utils.StrLtTotal(b.s, c.s);
      Utils.StrLtIrreflexive(a.s);
      if Utils.StrLt(a.s, b.s) && Utils.StrLt(b.s, c.s) {
        Utils.StrLtTransitive(a.s, b.s, c.s);
        Utils.StrLtAsymmetric(a.s, c.s);
      } else if Utils.StrLt(a.s, b.s) {
        Utils.StrLtAsymmetric(a.s, b.s);
      } else if Utils.StrLt(b.s, c.s) {
        Utils.StrLtAsymmetric(b.s, c.s);
      }
    }
  }

  function KeyOf(item: ListItem, k: string): Cell
  {
    Get(item, k).GetOr(Null)
  }

  /** The order sorted() produces: ascending puts an item first unless the
      next one is smaller; with reverse=True unless the next one is larger.
      Both keep equal items in their order. */
  predicate ItemLe(k: string, asc: bool, a: ListItem, b: ListItem)
  {
    if asc then !KeyLt(KeyOf(b, k), KeyOf(a, k)) else !KeyLt(KeyOf(a, k), KeyOf(b, k))
  }

  function ListLe(k: string, asc: bool): (ListItem, ListItem) -> bool
  {
    (a, b) => ItemLe(k, asc, a, b)
  }

  lemma ListLeIsPreorder(k: string, asc: bool)
    ensures Total(ListLe(k, asc)) && Transitive(ListLe(k, asc))
  {
    var le := ListLe(k, asc);
    forall a, b ensures le(a, b) || le(b, a) {
      KeyLtStrictWeak(KeyOf(a, k), KeyOf(b, k), KeyOf(b, k));
    }
    forall a, b, c | le(a, b) && le(b, c) ensures le(a, c) {
      if asc {
        KeyLtStrictWeak(KeyOf(a, k), KeyOf(b, k), KeyOf(c, k));
      } else {
        KeyLtStrictWeak(KeyOf(c, k), KeyOf(b, k), KeyOf(a, k));
      }
    }
  }

  /** The keys Python can sort: all numbers or all strings. */
  predicate Comparable(items: seq<ListItem>, k: string)
  {
    (forall i :: 0 <= i < |items| ==> k in items[i] && IsNum(items[i][k])) ||
    (forall i :: 0 <= i < |items| ==> k in items[i] && items[i][k].Str?)
  }

  /** sorted(items, key=lambda item: item[order[order_col - 1]], reverse=...):
      the key is computed for every item first, so an empty list never
      reaches the index, and two or more keys that do not compare raise. */
  function ListOrder(fieldNames: seq<string>, data: Request, items: seq<ListItem>): Result<seq<ListItem>>
  {
    match OrderColumn(data)
    case Err(e) => Err(e)
    case Ok(c) =>
      if items == [] then Ok([])
      else
        match PyIndex(fieldNames, c - 1)
        case None => Err("IndexError")
        case Some(k) =>
          if exists i :: 0 <= i < |items| && k !in items[i] then Err("KeyError")
          else if |items| >= 2 && !Comparable(items, k) then Err("TypeError")
          else Ok(SortBy(items, ListLe(k, OrderAscending(data))))
  }

  /** The items equal to y under the sort key. */
  function SameKeyFn(k: string, asc: bool, y: ListItem): ListItem -> bool
  {
    e => Equivalent(ListLe(k, asc), e, y)
  }

  /** A sorted permutation: no later item has a smaller key (a larger one
      with reverse=True), items with equal keys keep their order, and when
      two or more items were sorted their keys are all numbers or all
      strings, none of them None. */
  lemma ListOrderSorted(fieldNames: seq<string>, data: Request, items: seq<ListItem>)
    requires items != [] && ListOrder(fieldNames, data, items).Ok?
    ensures var s := ListOrder(fieldNames, data, items).value;
      var k := PyIndex(fieldNames, OrderColumn(data).value - 1).value;
      var asc := OrderAscending(data);
      multiset(s) == multiset(items) &&
      (forall i :: 0 <= i < |s| ==> k in s[i]) &&
      (forall i, j :: 0 <= i < j < |s| ==>
        if asc then !KeyLt(s[j][k], s[i][k]) else !KeyLt(s[i][k], s[j][k])) &&
      (forall y :: Filter(s, SameKeyFn(k, asc, y)) == Filter(items, SameKeyFn(k, asc, y))) &&
      (|items| >= 2 ==> forall i :: 0 <= i < |items| ==> items[i][k] != Null)
  {
    var s := ListOrder(fieldNames, data, items).value;
    var k := PyIndex(fieldNames, OrderColumn(data).value - 1).value;
    var asc := OrderAscending(data);
    var le := ListLe(k, asc);
    ListLeIsPreorder(k, asc);
    SortBySorted(items, le);
    forall i | 0 <= i < |s| ensures k in s[i] {
      assert s[i] in multiset(items);
      var j :| 0 <= j < |items| && items[j] == s[i];
    }
    assert forall i, j :: 0 <= i < j < |s| ==> ItemLe(k, asc, s[i], s[j]);
    forall y ensures Filter(s, SameKeyFn(k, asc, y)) == Filter(items, SameKeyFn(k, asc, y)) {
      SortByStable(items, le, y);
      FilterExt(s, EquivTo(le, y), SameKeyFn(k, asc, y));
      FilterExt(items, EquivTo(le, y), SameKeyFn(k, asc, y));
    }
  }

  // ---------------------------------------------------------------------
  // get_data_table_data

  /** items[start:start + length] unless length is -1; list slicing takes
      negative bounds from the end. */
  function ListPage<T>(data: Request, items: seq<T>): Result<seq<T>>
  {
    match IntParam(data, "length", 10)
    case Err(e) => Err(e)
    case Ok(length) =>
      if length == -1 then Ok(items)
      else
        match IntParam(data, "start", 0)
        case Err(e) => Err(e)
        case Ok(start) => Ok(PySlice(items, start, start + length))
  }

  /** Where both succeed the list page and the queryset page agree; the list
      page only differs in taking negative bounds instead of raising. */
  lemma ListPageAgreesWithQuery<T>(data: Request, items: seq<T>)
    ensures Page(data, items).Ok? ==> ListPage(data, items) == Page(data, items)
    ensures ListPage(data, items).Err? ==> Page(data, items) == ListPage(data, items)
    ensures Page(data, items) == Err("NegativeIndexing") ==> ListPage(data, items).Ok?
  {
  }

  /** row_id and item[row_id]: a configured row_id missing from the item is
      a KeyError. */
  function ListRowId(cfg: Config, item: ListItem): Result<Option<PyVal>>
  {
    if cfg.rowId.Some? && cfg.rowId.value != "" then
      if cfg.rowId.value in item then Ok(Some(PCell(item[cfg.rowId.value]))) else Err("KeyError")
    else Ok(None)
  }

  /** The template context: item[name] for every field name. */
  function ListFields(cfg: Config, item: ListItem): Result<map<string, Ctx>>
  {
    if forall n :: n in cfg.fieldNames ==> n in item then Ok(map n | n in cfg.fieldNames :: CVal(PCell(item[n])))
    else Err("KeyError")
  }

  predicate HasTemplate(cfg: Config, name: string)
  {
    name in cfg.fieldTemplates && cfg.fieldTemplates[name] != ""
  }

  function ListCellOut(cfg: Config, item: ListItem, name: string, ctx: map<string, Ctx>): Out
    requires name in item
  {
    FieldTemplate(cfg.fieldTemplates, name, Dash(PCell(item[name])), ctx)
  }

  /** The row after the cells of the keys in `keys` were added. */
  ghost function CellsOver(cfg: Config, item: ListItem, base: Row, ctx: map<string, Ctx>, keys: set<string>): Row
    requires keys <= item.Keys
  {
    base + CellMap(cfg, item, ctx, keys)
  }

  ghost function CellMap(cfg: Config, item: ListItem, ctx: map<string, Ctx>, keys: set<string>): Row
    requires keys <= item.Keys
  {
    map f | f in keys && f in cfg.fieldNames :: ListCellOut(cfg, item, f, ctx)
  }

  lemma CellMapStep(cfg: Config, item: ListItem, ctx: map<string, Ctx>, keys: set<string>, f: string)
    requires keys <= item.Keys && f in item
    ensures CellMap(cfg, item, ctx, keys + {f}) ==
      if f in cfg.fieldNames then CellMap(cfg, item, ctx, keys)[f := ListCellOut(cfg, item, f, ctx)]
      else CellMap(cfg, item, ctx, keys)
  {
    var a := CellMap(cfg, item, ctx, keys + {f});
    var b := CellMap(cfg, item, ctx, keys);
    var c := if f in cfg.fieldNames then b[f := ListCellOut(cfg, item, f, ctx)] else b;
    assert a.Keys == c.Keys;
  }

  lemma CellsOverEmpty(cfg: Config, item: ListItem, base: Row, ctx: map<string, Ctx>)
    ensures CellsOver(cfg, item, base, ctx, {}) == base
  {
    var m := CellsOver(cfg, item, base, ctx, {});
    assert m.Keys == base.Keys;
    forall k | k in m
      ensures m[k] == base[k]
    {
    }
  }

  lemma CellsOverStep(cfg: Config, item: ListItem, base: Row, ctx: map<string, Ctx>, keys: set<string>, f: string)
    requires keys <= item.Keys && f in item
    ensures CellsOver(cfg, item, base, ctx, keys + {f}) ==
      if f in cfg.fieldNames then CellsOver(cfg, item, base, ctx, keys)[f := ListCellOut(cfg, item, f, ctx)]
      else CellsOver(cfg, item, base, ctx, keys)
  {
    CellMapStep(cfg, item, ctx, keys, f);
    MergeUpdate(base, CellMap(cfg, item, ctx, keys), f, ListCellOut(cfg, item, f, ctx));
  }

  /** Adding a key to the right operand of a map merge adds it to the merge. */
  lemma MergeUpdate<K, V>(base: map<K, V>, m: map<K, V>, k: K, v: V)
    ensures base + m[k := v] == (base + m)[k := v]
  {
  }

  /** The cells of the item's own keys that are field names; a templated
      cell needs every field name in the item. */
  function ListCells(cfg: Config, item: ListItem, base: Row): Result<Row>
  {
    var fields := ListFields(cfg, item);
    if fields.Err? && exists f :: f in item && f in cfg.fieldNames && HasTemplate(cfg, f) then Err("KeyError")
    else
      var ctx := if fields.Ok? then fields.value else map[];
      Ok(base + map f | f in item && f in cfg.fieldNames :: ListCellOut(cfg, item, f, ctx))
  }

  predicate AnyTemplated(cfg: Config, item: ListItem)
  {
    exists f :: f in item && f in cfg.fieldNames && HasTemplate(cfg, f)
  }

  lemma ListCellsIsFill(cfg: Config, item: ListItem, base: Row)
    ensures var fields := ListFields(cfg, item);
      var ctx := if fields.Ok? then fields.value else map[];
      ListCells(cfg, item, base) ==
        if fields.Err? && AnyTemplated(cfg, item) then Err("KeyError")
        else Ok(CellsOver(cfg, item, base, ctx, item.Keys))
  {
  }

  /** item.get(url_id, item.get("id")), passed under the url id itself. */
  function ListId(item: ListItem, id: string): Result<(string, PyVal)>
  {
    Ok((id, PCell(if id in item then item[id] else KeyOf(item, "id"))))
  }

  function ListIdOf(item: ListItem): IdOf
  {
    id => ListId(item, id)
  }

  /** One JSON row of the page. */
  function ListRow(cfg: Config, item: ListItem, index: nat): Result<Row>
  {
    match ListRowId(cfg, item)
    case Err(e) => Err(e)
    case Ok(rv) =>
      match ListCells(cfg, item, RowBase(rv, index))
      case Err(e) => Err(e)
      case Ok(cells) => Actions(cells, cfg.urls, cfg.urls.items, ListIdOf(item), ListFields(cfg, item))
  }

  function ListRowOf(cfg: Config): (ListItem, nat) -> Result<Row>
  {
    (item: ListItem, index: nat) => ListRow(cfg, item, index)
  }

  method ListFieldValues(cfg: Config, item: ListItem, base: Row) returns (r: Result<Row>)
    ensures r == ListCells(cfg, item, base)
  {
    var fields := ListFields(cfg, item);
    var ctx := if fields.Ok? then fields.value else map[];
    r := FillCells(cfg, item, base, ctx, fields.Err?);
    ListCellsIsFill(cfg, item, base);
  }

  /** The loop over item.items(), in whatever order the dict has; a
      templated cell fails when the template context could not be built. */
  method FillCells(cfg: Config, item: ListItem, base: Row, ctx: map<string, Ctx>, missing: bool)
    returns (r: Result<Row>)
    ensures r == if missing && AnyTemplated(cfg, item) then Err("KeyError")
                 else Ok(CellsOver(cfg, item, base, ctx, item.Keys))
  {
    var itemValues := base;
    var todo := item.Keys;
    ghost var done: set<string> := {};
    CellsOverEmpty(cfg, item, base, ctx);
    while todo != {}
      invariant todo + done == item.Keys
      invariant missing ==> forall f :: f in done && f in cfg.fieldNames ==> !HasTemplate(cfg, f)
      invariant itemValues == CellsOver(cfg, item, base, ctx, done)
      decreases |todo|
    {
      var f :| f in todo;
      if f in cfg.fieldNames {
        if HasTemplate(cfg, f) && missing {
          assert f in item && f in cfg.fieldNames && HasTemplate(cfg, f);
          return Err("KeyError");
        }
        itemValues := itemValues[f := ListCellOut(cfg, item, f, ctx)];
      }
      CellsOverStep(cfg, item, base, ctx, done, f);
      assert |todo - {f}| < |todo|;
      todo := todo - {f};
      done := done + {f};
    }
    assert done == item.Keys;
    r := Ok(itemValues);
  }

  /** The part of get_data_table_data that fills one row. */
  method ListRowValues(cfg: Config, item: ListItem, index: nat) returns (r: Result<Row>)
    ensures r == ListRow(cfg, item, index)
  {
    var rv := ListRowId(cfg, item);
    if rv.Err? {
      return Err(rv.error);
    }
    var cells := ListFieldValues(cfg, item, RowBase(rv.value, index));
    if cells.Err? {
      return Err(cells.error);
    }
    r := AddItemActions(cells.value, cfg.urls, ListIdOf(item), ListFields(cfg, item));
  }

  function ListData(cfg: Config, data: Request, items: seq<ListItem>): Result<Envelope>
  {
    match ListPage(data, items)
    case Err(e) => Err(e)
    case Ok(page) =>
      match RowsOut(ListRowOf(cfg), page)
      case Err(e) => Err(e)
      case Ok(out) => Ok(Envelope(out, Get(data, "draw"), |items|, |items|))
  }

  /** get_data_table_data of the list view. */
  method ListGetDataTableData(cfg: Config, data: Request, items: seq<ListItem>) returns (r: Result<Envelope>)
    ensures r == ListData(cfg, data, items)
  {
    var total := |items|;
    var page := ListPage(data, items);
    if page.Err? {
      return Err(page.error);
    }
    var rows := page.value;
    var dataList: seq<Row> := [];
    var index := 0;
    while index < |rows|
      invariant 0 <= index <= |rows|
      invariant RowsOut(ListRowOf(cfg), rows[..index]) == Ok(dataList)
    {
      var row := ListRowValues(cfg, rows[index], index);
      assert ListRowOf(cfg)(rows[index], index) == row;
      RowsOutStep(ListRowOf(cfg), rows, index);
      if row.Err? {
        RowsOutErr(ListRowOf(cfg), rows, index + 1);
        return Err(row.error);
      }
      dataList := dataList + [row.value];
      index := index + 1;
    }
    assert rows[..index] == rows;
    r := Ok(Envelope(dataList, Get(data, "draw"), total, total));
  }

  // ---------------------------------------------------------------------
  // DataTableListDataView.get_context_data

  function ListResponse(cfg: Config, data: Request, items: seq<ListItem>): Result<Envelope>
  {
    match ListFiltered(cfg.filters.regexEnabled, data, 0, items)
    case Err(e) => Err(e)
    case Ok(kept) =>
      match ListOrder(cfg.fieldNames, data, kept)
      case Err(e) => Err(e)
      case Ok(ordered) => ListData(cfg, data, ordered)
  }

  /** Filter, order, then one page of rows. */
  method ListGetContextData(cfg: Config, data: Request, items: seq<ListItem>) returns (r: Result<Envelope>)
    ensures r == ListResponse(cfg, data, items)
  {
    var kept := ListFilterData(cfg.filters.regexEnabled, data, items);
    if kept.Err? {
      return Err(kept.error);
    }
    var ordered := ListOrder(cfg.fieldNames, data, kept.value);
    if ordered.Err? {
      return Err(ordered.error);
    }
    r := ListGetDataTableData(cfg, data, ordered.value);
  }

  lemma ListOrderLength(fieldNames: seq<string>, data: Request, items: seq<ListItem>)
    requires ListOrder(fieldNames, data, items).Ok?
    ensures |ListOrder(fieldNames, data, items).value| == |items|
  {
  }

  lemma ListDataCounts(cfg: Config, data: Request, items: seq<ListItem>)
    requires ListData(cfg, data, items).Ok?
    ensures var env := ListData(cfg, data, items).value;
      env.recordsTotal == env.recordsFiltered == |items| &&
      |env.data| <= |items| &&
      env.draw == Get(data, "draw")
  {
    RowsOutShape(ListRowOf(cfg), ListPage(data, items).value);
  }

  /** Both counts are the number of filtered items before slicing; the page
      has at most that many rows. */
  lemma ListResponseCounts(cfg: Config, data: Request, items: seq<ListItem>)
    requires ListResponse(cfg, data, items).Ok?
    ensures var env := ListResponse(cfg, data, items).value;
      var kept := ListFiltered(cfg.filters.regexEnabled, data, 0, items).value;
      env.recordsTotal == env.recordsFiltered == |kept| &&
      |kept| <= |items| &&
      |env.data| <= env.recordsTotal &&
      env.draw == Get(data, "draw")
  {
    var kept := ListFiltered(cfg.filters.regexEnabled, data, 0, items).value;
    ListFilteredConjunctive(cfg.filters.regexEnabled, data, 0, items);
    var ordered := ListOrder(cfg.fieldNames, data, kept).value;
    ListOrderLength(cfg.fieldNames, data, kept);
    ListDataCounts(cfg, data, ordered);
  }

  /** ListCells adds a cell for each of the item's keys that is a field
      name and leaves the other base cells as they were. */
  lemma ListCellsShape(cfg: Config, item: ListItem, base: Row)
    requires ListCells(cfg, item, base).Ok?
    ensures var c := ListCells(cfg, item, base).value;
      var fields := ListFields(cfg, item);
      var ctx := if fields.Ok? then fields.value else map[];
      c.Keys == base.Keys + (set f | f in item && f in cfg.fieldNames) &&
      (forall n :: n in item && n in cfg.fieldNames ==> c[n] == ListCellOut(cfg, item, n, ctx)) &&
      (forall k :: k in base && !(k in item && k in cfg.fieldNames) ==> c[k] == base[k])
  {
  }

  /** The id and add cells of a row, and one rendered cell per url item. */
  lemma ListRowFixedCells(cfg: Config, item: ListItem, index: nat)
    requires ListRow(cfg, item, index).Ok?
    requires "DT_RowId" !in cfg.fieldNames && "add" !in cfg.fieldNames
    requires forall u :: u in cfg.urls.items ==> u.fieldName != "DT_RowId" && u.fieldName != "add"
    ensures var row := ListRow(cfg, item, index).value;
      var rv := ListRowId(cfg, item).value;
      "DT_RowId" in row && row["DT_RowId"] == OText(RowIdText(rv, index)) &&
      "add" in row && row["add"] == OText("") &&
      (forall u :: u in cfg.urls.items ==> u.fieldName in row && row[u.fieldName].ORendered?)
  {
    var rv := ListRowId(cfg, item).value;
    var base := RowBase(rv, index);
    ListCellsShape(cfg, item, base);
    var cells := ListCells(cfg, item, base).value;
    assert cells["DT_RowId"] == base["DT_RowId"] && cells["add"] == base["add"];
    ActionsCoverAllItems(cells, cfg.urls, cfg.urls.items, ListIdOf(item), ListFields(cfg, item));
  }

  /** The field cells of a row: the dashed value where the field has no
      template, a rendering of its template where it has one, and no cell
      for a key the item lacks. */
  lemma ListRowFieldCells(cfg: Config, item: ListItem, index: nat)
    requires ListRow(cfg, item, index).Ok?
    ensures var row := ListRow(cfg, item, index).value;
      (forall n :: (n in item && n in cfg.fieldNames && !HasTemplate(cfg, n) &&
                    (forall u :: u in cfg.urls.items ==> u.fieldName != n)) ==>
        n in row && row[n] == OVal(Dash(PCell(item[n])))) &&
      (forall n :: (n in item && n in cfg.fieldNames && HasTemplate(cfg, n) &&
                    (forall u :: u in cfg.urls.items ==> u.fieldName != n)) ==>
        n in row && row[n].ORendered? && row[n].template == cfg.fieldTemplates[n]) &&
      (forall n :: (n !in item && n != "DT_RowId" && n != "add" &&
                    (forall u :: u in cfg.urls.items ==> u.fieldName != n)) ==> n !in row)
  {
    var rv := ListRowId(cfg, item).value;
    var base := RowBase(rv, index);
    ListCellsShape(cfg, item, base);
    var cells := ListCells(cfg, item, base).value;
    ActionsCoverAllItems(cells, cfg.urls, cfg.urls.items, ListIdOf(item), ListFields(cfg, item));
  }

  /** A row has its id, the empty add cell, a cell for each of the item's
      keys that is a field name, and the url items' renderings; a field
      name the item lacks gets no cell. */
  lemma ListRowShape(cfg: Config, item: ListItem, index: nat)
    requires ListRow(cfg, item, index).Ok?
    requires "DT_RowId" !in cfg.fieldNames && "add" !in cfg.fieldNames
    requires forall u :: u in cfg.urls.items ==> u.fieldName != "DT_RowId" && u.fieldName != "add"
    ensures var row := ListRow(cfg, item, index).value;
      var rv := ListRowId(cfg, item).value;
      "DT_RowId" in row && row["DT_RowId"] == OText(RowIdText(rv, index)) &&
      "add" in row && row["add"] == OText("") &&
      (forall n :: (n in item && n in cfg.fieldNames && !HasTemplate(cfg, n) &&
                    (forall u :: u in cfg.urls.items ==> u.fieldName != n)) ==>
        n in row && row[n] == OVal(Dash(PCell(item[n])))) &&
      (forall n :: (n in item && n in cfg.fieldNames && HasTemplate(cfg, n) &&
                    (forall u :: u in cfg.urls.items ==> u.fieldName != n)) ==>
        n in row && row[n].ORendered? && row[n].template == cfg.fieldTemplates[n]) &&
      (forall n :: (n !in item && n != "DT_RowId" && n != "add" &&
                    (forall u :: u in cfg.urls.items ==> u.fieldName != n)) ==> n !in row) &&
      (forall u :: u in cfg.urls.items ==> u.fieldName in row && row[u.fieldName].ORendered?)
  {
    ListRowFixedCells(cfg, item, index);
    ListRowFieldCells(cfg, item, index);
  }
}

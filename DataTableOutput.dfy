/** What both table modes send back for one page: rows of rendered cells
    (template rendering and URL reversing are opaque constructors), the
    row actions of add_item_actions, and the JSON envelope. */
module DataTableOutput {
  import opened Common
  import opened DataTableRecords
  import opened DataTableConfig

  /** A value placed into a template context. */
  datatype Ctx =
    | CVal(v: PyVal)
    | CAttrs(attrs: map<string, Cell>)
    | CUrl(name: string, kwarg: string, id: PyVal)

  /** One cell of a JSON row. */
  datatype Out =
    | OText(s: string)
    | OVal(v: PyVal)
    | ORendered(template: string, context: map<string, Ctx>)

  type Row = map<string, Out>

  datatype Envelope = Envelope(data: seq<Row>, draw: Option<string>, recordsFiltered: nat, recordsTotal: nat)

  // ---------------------------------------------------------------------
  // {**url_defaults, **url_item}

  function Pick<T>(d: Option<T>, o: Option<T>): Option<T>
  {
    if o.Some? then o else d
  }

  /** Every option the item sets wins over the defaults. */
  function MergeOpts(d: UrlOptions, o: UrlOptions): UrlOptions
  {
    UrlOptions(Pick(d.permissions, o.permissions), Pick(d.href, o.href), Pick(d.id, o.id),
      Pick(d.template, o.template), Pick(d.context, o.context), Pick(d.attrs, o.attrs))
  }

  const NoOptions := UrlOptions(None, None, None, None, None, None)

  /** Dict merging with {} on either side changes nothing, merging twice
      with the same defaults is merging once, and merges associate. */
  lemma MergeLaws(a: UrlOptions, b: UrlOptions, c: UrlOptions)
    ensures MergeOpts(NoOptions, a) == a && MergeOpts(a, NoOptions) == a
    ensures MergeOpts(a, MergeOpts(a, b)) == MergeOpts(a, b)
    ensures MergeOpts(MergeOpts(a, b), c) == MergeOpts(a, MergeOpts(b, c))
  {
  }

  // ---------------------------------------------------------------------
  // Cell values

  /** None and "" are shown as "-". */
  function Dash(v: PyVal): (r: PyVal)
    ensures r != PCell(Null) && r != PCell(Str(""))
    ensures v != PCell(Null) && v != PCell(Str("")) ==> r == v
    ensures v == PCell(Null) || v == PCell(Str("")) ==> r == PCell(Str("-"))
  {
    if v == PCell(Null) || v == PCell(Str("")) then PCell(Str("-")) else v
  }

  /** "row-%s" % (row_id and value or index + 1); `value` is None when the
      table has no row_id. */
  function RowIdText(value: Option<PyVal>, index: nat): (r: string)
    ensures StartsWith(r, "row-")
    ensures value.Some? && Truthy(value.value) ==> r[4..] == PyStr(value.value)
    ensures value.None? || !Truthy(value.value) ==> r[4..] == NatToString(index + 1)
  {
    "row-" + (if value.Some? && Truthy(value.value) then PyStr(value.value) else NatToString(index + 1))
  }

  /** Rows that fall back to their position get distinct ids. */
  lemma RowIdFallbackDistinct(i: nat, j: nat)
    requires i != j
    ensures RowIdText(None, i) != RowIdText(None, j)
  {
    if RowIdText(None, i) == RowIdText(None, j) {
      assert RowIdText(None, i)[4..] == RowIdText(None, j)[4..];
      NatToStringInjective(i + 1, j + 1);
    }
  }

  /** get_field_template: without a template the value itself; with one a
      rendering whose context has the value and every field of the row. */
  function FieldTemplate(templates: map<string, string>, name: string, value: PyVal,
                         fields: map<string, Ctx>): (r: Out)
    ensures (name !in templates || templates[name] == "") ==> r == OVal(value)
    ensures name in templates && templates[name] != "" ==>
      r.ORendered? && r.template == templates[name] &&
      r.context.Keys == fields.Keys + {"field_value"} &&
      (forall k :: k in fields ==> r.context[k] == fields[k]) &&
      ("field_value" !in fields ==> r.context["field_value"] == CVal(value))
  {
    if name in templates && templates[name] != "" then
      ORendered(templates[name], map["field_value" := CVal(value)] + fields)
    else OVal(value)
  }

  // ---------------------------------------------------------------------
  // add_item_actions

  /** A url id resolved to the keyword argument name and the value given
      to reverse(); errors are the lookups that raise. */
  type IdOf = string -> Result<(string, PyVal)>

  function ActionHref(m: UrlOptions, idOf: IdOf): Result<Option<Ctx>>
  {
    if m.href.Some? && m.href.value != "" then
      match idOf(m.id.GetOr("pk"))
      case Ok(kv) => Ok(Some(CUrl(m.href.value, kv.0, kv.1)))
      case Err(e) => Err(e)
    else Ok(None)
  }

  /** The configured context, then "attrs", then "href", then the fields. */
  function ActionContext(m: UrlOptions, href: Option<Ctx>, fields: map<string, Ctx>): map<string, Ctx>
  {
    var given := m.context.GetOr(map[]);
    var base := map k | k in given :: CVal(PCell(given[k]));
    var withAttrs := base["attrs" := CAttrs(m.attrs.GetOr(map[]))];
    var withHref := if href.Some? then withAttrs["href" := href.value] else withAttrs;
    withHref + fields
  }

  /** One url item rendered for one row; an item without a template is a
      KeyError. */
  function ItemAction(m: UrlOptions, idOf: IdOf, fields: Result<map<string, Ctx>>): Result<Out>
  {
    match ActionHref(m, idOf)
    case Err(e) => Err(e)
    case Ok(h) =>
      match fields
      case Err(e) => Err(e)
      case Ok(f) =>
        if m.template.None? then Err("KeyError")
        else Ok(ORendered(m.template.value, ActionContext(m, h, f)))
  }

  /** The item values after the first |items| url items. */
  function Actions(values: Row, urls: Urls, items: seq<UrlItem>, idOf: IdOf,
                   fields: Result<map<string, Ctx>>): Result<Row>
    decreases |items|
  {
    if items == [] then Ok(values)
    else
      match Actions(values, urls, items[..|items| - 1], idOf, fields)
      case Err(e) => Err(e)
      case Ok(v) =>
        var last := items[|items| - 1];
        match ItemAction(MergeOpts(urls.defaults, last.opts), idOf, fields)
        case Err(e) => Err(e)
        case Ok(o) => Ok(v[last.fieldName := o])
  }

  /** add_item_actions */
  method AddItemActions(values: Row, urls: Urls, idOf: IdOf, fields: Result<map<string, Ctx>>)
    returns (r: Result<Row>)
    ensures r == Actions(values, urls, urls.items, idOf, fields)
  {
    var itemValues := values;
    var i := 0;
    while i < |urls.items|
      invariant 0 <= i <= |urls.items|
      invariant Actions(values, urls, urls.items[..i], idOf, fields) == Ok(itemValues)
    {
      var url := urls.items[i];
      var merged := MergeOpts(urls.defaults, url.opts);
      var out := ItemAction(merged, idOf, fields);
      assert urls.items[..i + 1][..i] == urls.items[..i];
      if out.Err? {
        ActionsErrSticks(values, urls, urls.items, i + 1, idOf, fields);
        return Err(out.error);
      }
      itemValues := itemValues[url.fieldName := out.value];
      i := i + 1;
    }
    assert urls.items[..i] == urls.items;
    r := Ok(itemValues);
  }

  /** An error stops the loop: the first failing item decides the result. */
  lemma {:induction false} ActionsErrSticks(values: Row, urls: Urls, items: seq<UrlItem>, n: nat,
                                            idOf: IdOf, fields: Result<map<string, Ctx>>)
    requires n <= |items|
    requires Actions(values, urls, items[..n], idOf, fields).Err?
    ensures Actions(values, urls, items, idOf, fields) == Actions(values, urls, items[..n], idOf, fields)
    decreases |items|
  {
    if n < |items| {
      assert items[..|items| - 1][..n] == items[..n];
      ActionsErrSticks(values, urls, items[..|items| - 1], n, idOf, fields);
    } else {
      assert items[..n] == items;
    }
  }

  /** Every url item gets a rendered cell, whatever the user's permissions;
      the other cells of the row are kept. */
  lemma {:induction false} ActionsCoverAllItems(values: Row, urls: Urls, items: seq<UrlItem>, idOf: IdOf,
                                                fields: Result<map<string, Ctx>>)
    requires Actions(values, urls, items, idOf, fields).Ok?
    ensures var v := Actions(values, urls, items, idOf, fields).value;
      v.Keys == values.Keys + (set u | u in items :: u.fieldName) &&
      (forall u :: u in items ==> v[u.fieldName].ORendered?) &&
      (forall k :: k in values && (forall u :: u in items ==> u.fieldName != k) ==> v[k] == values[k])
  {
    ActionsKeys(values, urls, items, idOf, fields);
    ActionsRendered(values, urls, items, idOf, fields);
    ActionsKeep(values, urls, items, idOf, fields);
  }

  /** The last url item of a successful loop. */
  lemma ActionsLast(values: Row, urls: Urls, items: seq<UrlItem>, idOf: IdOf,
                    fields: Result<map<string, Ctx>>)
    requires items != [] && Actions(values, urls, items, idOf, fields).Ok?
    ensures var last := items[|items| - 1];
      var o := ItemAction(MergeOpts(urls.defaults, last.opts), idOf, fields);
      Actions(values, urls, items[..|items| - 1], idOf, fields).Ok? && o.Ok? && o.value.ORendered? &&
      Actions(values, urls, items, idOf, fields).value ==
        Actions(values, urls, items[..|items| - 1], idOf, fields).value[last.fieldName := o.value]
  {
  }

  lemma {:induction false} ActionsKeys(values: Row, urls: Urls, items: seq<UrlItem>, idOf: IdOf,
                                       fields: Result<map<string, Ctx>>)
    requires Actions(values, urls, items, idOf, fields).Ok?
    ensures Actions(values, urls, items, idOf, fields).value.Keys == values.Keys + (set u | u in items :: u.fieldName)
    decreases |items|
  {
    if items != [] {
      var init := items[..|items| - 1];
      var last := items[|items| - 1];
      assert items == init + [last];
      ActionsLast(values, urls, items, idOf, fields);
      ActionsKeys(values, urls, init, idOf, fields);
      var si := set u | u in init :: u.fieldName;
      var sa := set u | u in items :: u.fieldName;
      forall k | k in sa ensures k in si + {last.fieldName} {
        var u :| u in items && u.fieldName == k;
        if u != last { assert u in init; }
      }
      forall k | k in si + {last.fieldName} ensures k in sa {
        if k != last.fieldName {
          var u :| u in init && u.fieldName == k;
          assert u in items;
        } else {
          assert last in items;
        }
      }
    }
  }

  lemma {:induction false} ActionsRendered(values: Row, urls: Urls, items: seq<UrlItem>, idOf: IdOf,
                                           fields: Result<map<string, Ctx>>)
    requires Actions(values, urls, items, idOf, fields).Ok?
    ensures var v := Actions(values, urls, items, idOf, fields).value;
      forall u :: u in items ==> u.fieldName in v && v[u.fieldName].ORendered?
    decreases |items|
  {
    if items != [] {
      var init := items[..|items| - 1];
      var last := items[|items| - 1];
      assert items == init + [last];
      ActionsLast(values, urls, items, idOf, fields);
      ActionsRendered(values, urls, init, idOf, fields);
      var v := Actions(values, urls, items, idOf, fields).value;
      forall u | u in items ensures u.fieldName in v && v[u.fieldName].ORendered? {
        if u.fieldName != last.fieldName {
          assert u in init;
        }
      }
    }
  }

  lemma {:induction false} ActionsKeep(values: Row, urls: Urls, items: seq<UrlItem>, idOf: IdOf,
                                       fields: Result<map<string, Ctx>>)
    requires Actions(values, urls, items, idOf, fields).Ok?
    ensures var v := Actions(values, urls, items, idOf, fields).value;
      forall k :: k in values && (forall u :: u in items ==> u.fieldName != k) ==> k in v && v[k] == values[k]
    decreases |items|
  {
    if items != [] {
      var init := items[..|items| - 1];
      var last := items[|items| - 1];
      assert items == init + [last];
      ActionsLast(values, urls, items, idOf, fields);
      ActionsKeep(values, urls, init, idOf, fields);
      assert last in items;
      assert forall u :: u in init ==> u in items;
    }
  }

  /** When no field lookup fails and every url item names a template, an
      item only fails on its id lookup; without hrefs nothing fails. */
  lemma {:induction false} ActionsWithoutHrefs(values: Row, urls: Urls, items: seq<UrlItem>, idOf: IdOf,
                                               fields: map<string, Ctx>)
    requires forall u :: u in items ==> MergeOpts(urls.defaults, u.opts).template.Some?
    requires forall u :: u in items ==> MergeOpts(urls.defaults, u.opts).href.GetOr("") == ""
    ensures Actions(values, urls, items, idOf, Ok(fields)).Ok?
    decreases |items|
  {
    if items != [] {
      var init := items[..|items| - 1];
      assert forall u :: u in init ==> u in items;
      ActionsWithoutHrefs(values, urls, init, idOf, fields);
      assert items[|items| - 1] in items;
    }
  }

  // ---------------------------------------------------------------------
  // The rows of a page

  /** The rows of the first |page| entries, the k-th built with index k by
      `rowOf`; the first failing entry decides the error. */
  function RowsOut<T>(rowOf: (T, nat) -> Result<Row>, page: seq<T>): Result<seq<Row>>
    decreases |page|
  {
    if page == [] then Ok([])
    else
      match RowsOut(rowOf, page[..|page| - 1])
      case Err(e) => Err(e)
      case Ok(rs) =>
        match rowOf(page[|page| - 1], |page| - 1)
        case Err(e) => Err(e)
        case Ok(row) => Ok(rs + [row])
  }

  /** One more row of a page whose earlier rows all succeeded. */
  lemma RowsOutStep<T>(rowOf: (T, nat) -> Result<Row>, page: seq<T>, index: nat)
    requires index < |page| && RowsOut(rowOf, page[..index]).Ok?
    ensures var r := rowOf(page[index], index);
      RowsOut(rowOf, page[..index + 1]) ==
        if r.Err? then Err(r.error) else Ok(RowsOut(rowOf, page[..index]).value + [r.value])
  {
    assert page[..index + 1][..index] == page[..index];
  }

  lemma {:induction false} RowsOutErr<T>(rowOf: (T, nat) -> Result<Row>, page: seq<T>, n: nat)
    requires n <= |page|
    requires RowsOut(rowOf, page[..n]).Err?
    ensures RowsOut(rowOf, page) == RowsOut(rowOf, page[..n])
    decreases |page|
  {
    if n < |page| {
      assert page[..|page| - 1][..n] == page[..n];
      RowsOutErr(rowOf, page[..|page| - 1], n);
    } else {
      assert page[..n] == page;
    }
  }

  /** One output row per page entry, the k-th built with index k. */
  lemma {:induction false} RowsOutShape<T>(rowOf: (T, nat) -> Result<Row>, page: seq<T>)
    requires RowsOut(rowOf, page).Ok?
    ensures |RowsOut(rowOf, page).value| == |page|
    ensures forall k :: 0 <= k < |page| ==> rowOf(page[k], k) == Ok(RowsOut(rowOf, page).value[k])
    decreases |page|
  {
    if page != [] {
      var init := page[..|page| - 1];
      RowsOutShape(rowOf, init);
      forall k | 0 <= k < |init| ensures page[k] == init[k] { }
    }
  }
}

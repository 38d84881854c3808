/** The views over websites and their records: the check-website routing,
    the plain fields of the details document, the rows each table view
    starts from, and the column configurations of the tables. */
module WebsiteViews {
  import opened Common
  import Utils
  import opened WebsiteModels

  // ---------------------------------------------------------------------
  // CheckWebsiteView

  datatype Response =
    | NotFound
    | Redirect(route: string, websiteId: int)
    | Gone

  /** The website with primary key `id`. */
  function ById(ws: seq<Website>, id: int): (r: Option<Website>)
    ensures r.Some? ==> r.value in ws && r.value.id == id
    ensures r.None? ==> forall w :: w in ws ==> w.id != id
    decreases |ws|
  {
    if ws == [] then None
    else if ws[0].id == id then Some(ws[0])
    else ById(ws[1..], id)
  }

  /** dispatch and get_redirect_url: a missing website, or one without an
      assigned user or type, is a 404; a fake shop goes to the fake-shop
      form and a counterfeiter to the counterfeiter form, both for this
      website; any other type gives no url, which the redirect view answers
      with 410 Gone. */
  function CheckWebsite(ws: seq<Website>, ids: Ids, id: int): Response
  {
    match ById(ws, id)
    case None => NotFound
    case Some(w) =>
      if w.assignedTo.None? || w.websiteType.None? then NotFound
      else if w.websiteType.value == ids.fakeShop then Redirect("mal2_db:add_fake_shop", w.id)
      else if w.websiteType.value == ids.counterfeite then Redirect("mal2_db:add_counterfeiter", w.id)
      else Gone
  }

  /** The redirect happens exactly for an assigned fake shop or
      counterfeiter, always for the requested website, and such a website
      is one of the websites to check while its url is not recorded. */
  lemma CheckWebsiteRoutes(db: Db, ids: Ids, id: int)
    requires ids.fakeShop != ids.counterfeite
    ensures var r := CheckWebsite(db.websites, ids, id);
      var w := ById(db.websites, id);
      (r.NotFound? <==> w.None? || w.value.assignedTo.None? || w.value.websiteType.None?) &&
      (r == Redirect("mal2_db:add_fake_shop", id) <==>
        w.Some? && w.value.assignedTo.Some? && TypeIs(w.value, ids.fakeShop)) &&
      (r == Redirect("mal2_db:add_counterfeiter", id) <==>
        w.Some? && w.value.assignedTo.Some? && TypeIs(w.value, ids.counterfeite)) &&
      (r.Redirect? ==> r.websiteId == id && (!Recorded(db, w.value) ==> w.value in Select(db, ids, ToCheck)))
  {
  }

  // ---------------------------------------------------------------------
  // DetailsPDFView: the plain fields

  /** One field of the details document. */
  datatype PdfEntry = PdfEntry(title: string, id: string, value: Utils.Value)

  datatype PdfFieldset = PdfFieldset(legend: Option<string>, fields: seq<PdfEntry>)

  /** The entry of one field name: its titled verbose name (a field the
      model lacks makes get_field fail) and its value in the object dict. */
  function PdfEntryOf(labels: map<string, string>, obj: map<string, Utils.Value>, field: string): Result<PdfEntry>
  {
    if field !in labels then Err("FieldDoesNotExist")
    else if field !in obj then Err("KeyError")
    else Ok(PdfEntry(labels[field], field, obj[field]))
  }

  /** The entries of a list of plain field names. */
  function PdfEntries(labels: map<string, string>, obj: map<string, Utils.Value>, fields: seq<string>): Result<seq<PdfEntry>>
    decreases |fields|
  {
    if fields == [] then Ok([])
    else
      match PdfEntries(labels, obj, fields[..|fields| - 1])
      case Err(e) => Err(e)
      case Ok(init) =>
        match PdfEntryOf(labels, obj, fields[|fields| - 1])
        case Err(e) => Err(e)
        case Ok(x) => Ok(init + [x])
  }

  /** _get_pdf_field_data over plain field names. */
  method PdfFieldData(labels: map<string, string>, obj: map<string, Utils.Value>, fields: seq<string>)
    returns (r: Result<seq<PdfEntry>>)
    ensures r == PdfEntries(labels, obj, fields)
  {
    var fieldData: seq<PdfEntry> := [];
    var i := 0;
    while i < |fields|
      invariant 0 <= i <= |fields|
      invariant PdfEntries(labels, obj, fields[..i]) == Ok(fieldData)
    {
      assert fields[..i + 1][..i] == fields[..i];
      var e := PdfEntryOf(labels, obj, fields[i]);
      if e.Err? {
        PdfEntriesErrStays(labels, obj, fields, i + 1);
        return Err(e.error);
      }
      fieldData := fieldData + [e.value];
      i := i + 1;
    }
    assert fields[..i] == fields;
    r := Ok(fieldData);
  }

  /** The first failing field decides the error. */
  lemma {:induction false} PdfEntriesErrStays(labels: map<string, string>, obj: map<string, Utils.Value>,
                                              fields: seq<string>, i: nat)
    requires i <= |fields| && PdfEntries(labels, obj, fields[..i]).Err?
    ensures PdfEntries(labels, obj, fields) == PdfEntries(labels, obj, fields[..i])
    decreases |fields| - i
  {
    if i < |fields| {
      assert fields[..i + 1][..i] == fields[..i];
      PdfEntriesErrStays(labels, obj, fields, i + 1);
    } else {
      assert fields[..i] == fields;
    }
  }

  /** Every plain field contributes one entry, in the listed order, with
      its label, its name and its value; the entries fail exactly when a
      field is unknown to the model or missing from the object dict. */
  lemma {:induction false} PdfEntriesShape(labels: map<string, string>, obj: map<string, Utils.Value>, fields: seq<string>)
    ensures PdfEntries(labels, obj, fields).Ok? <==> forall k :: 0 <= k < |fields| ==> fields[k] in labels && fields[k] in obj
    ensures PdfEntries(labels, obj, fields).Ok? ==>
      var es := PdfEntries(labels, obj, fields).value;
      |es| == |fields| &&
      forall k :: 0 <= k < |fields| ==> es[k] == PdfEntry(labels[fields[k]], fields[k], obj[fields[k]])
    decreases |fields|
  {
    if fields != [] {
      var init := fields[..|fields| - 1];
      PdfEntriesShape(labels, obj, init);
      assert forall k :: 0 <= k < |init| ==> init[k] == fields[k];
    }
  }

  /** The document data: one legend and its entries per fieldset. */
  function PdfData(labels: map<string, string>, obj: map<string, Utils.Value>,
                   fieldsets: seq<(Option<string>, seq<string>)>): Result<seq<PdfFieldset>>
    decreases |fieldsets|
  {
    if fieldsets == [] then Ok([])
    else
      var last := fieldsets[|fieldsets| - 1];
      match PdfData(labels, obj, fieldsets[..|fieldsets| - 1])
      case Err(e) => Err(e)
      case Ok(init) =>
        match PdfEntries(labels, obj, last.1)
        case Err(e) => Err(e)
        case Ok(fs) => Ok(init + [PdfFieldset(last.0, fs)])
  }

  /** The first failing fieldset decides the error. */
  lemma {:induction false} PdfDataErrStays(labels: map<string, string>, obj: map<string, Utils.Value>,
                                           fieldsets: seq<(Option<string>, seq<string>)>, i: nat)
    requires i <= |fieldsets| && PdfData(labels, obj, fieldsets[..i]).Err?
    ensures PdfData(labels, obj, fieldsets) == PdfData(labels, obj, fieldsets[..i])
    decreases |fieldsets| - i
  {
    if i < |fieldsets| {
      assert fieldsets[..i + 1][..i] == fieldsets[..i];
      PdfDataErrStays(labels, obj, fieldsets, i + 1);
    } else {
      assert fieldsets[..i] == fieldsets;
    }
  }

  /** get_pdf_data, for fieldsets of plain fields. */
  method GetPdfData(labels: map<string, string>, obj: map<string, Utils.Value>,
                    fieldsets: seq<(Option<string>, seq<string>)>) returns (r: Result<seq<PdfFieldset>>)
    ensures r == PdfData(labels, obj, fieldsets)
  {
    var pdfData: seq<PdfFieldset> := [];
    var i := 0;
    while i < |fieldsets|
      invariant 0 <= i <= |fieldsets|
      invariant PdfData(labels, obj, fieldsets[..i]) == Ok(pdfData)
    {
      assert fieldsets[..i + 1][..i] == fieldsets[..i];
      var fs := PdfFieldData(labels, obj, fieldsets[i].1);
      if fs.Err? {
        PdfDataErrStays(labels, obj, fieldsets, i + 1);
        return Err(fs.error);
      }
      pdfData := pdfData + [PdfFieldset(fieldsets[i].0, fs.value)];
      i := i + 1;
    }
    assert fieldsets[..i] == fieldsets;
    r := Ok(pdfData);
  }

  /** One entry per fieldset, in fieldset order, with the fieldset's
      legend and the entries of its fields. */
  lemma {:induction false} PdfDataShape(labels: map<string, string>, obj: map<string, Utils.Value>,
                                        fieldsets: seq<(Option<string>, seq<string>)>)
    requires PdfData(labels, obj, fieldsets).Ok?
    ensures var d := PdfData(labels, obj, fieldsets).value;
      |d| == |fieldsets| &&
      forall k :: 0 <= k < |fieldsets| ==>
        d[k].legend == fieldsets[k].0 && Ok(d[k].fields) == PdfEntries(labels, obj, fieldsets[k].1)
    decreases |fieldsets|
  {
    if fieldsets != [] {
      var init := fieldsets[..|fieldsets| - 1];
      PdfDataShape(labels, obj, init);
      assert forall k :: 0 <= k < |init| ==> init[k] == fieldsets[k];
    }
  }

  // ---------------------------------------------------------------------
  // The data views and their tables

  /** The table views and the rows each one hands to the table engine. */
  datatype TableView =
    | AllWebsitesTable | ToCheckTable | WithoutVerificationTable | UnsureTable | DisagreementTable
    | FakeShopTable | CounterfeitersTable | NoFakeTable | OtherTable | OnlineShopsTable

  /** The website query-set method of a website table; the fake-shop and
      counterfeiter tables list their own records. */
  function ObjectsOf(t: TableView): Option<View>
  {
    match t
    case AllWebsitesTable => Some(All)
    case ToCheckTable => Some(ToCheck)
    case WithoutVerificationTable => Some(WithoutVerification)
    case UnsureTable => Some(Unsure)
    case DisagreementTable => Some(Disagreement)
    case NoFakeTable => Some(IsNoFake)
    case OtherTable => Some(IsOtherSites)
    case OnlineShopsTable => Some(IsOnlineShop)
    case FakeShopTable => None
    case CounterfeitersTable => None
  }

  /** Every row a website table starts from satisfies the condition of its
      query-set method; all classification tables leave out the recorded
      urls. */
  lemma TableRowsClassified(db: Db, ids: Ids, t: TableView, w: Website)
    requires ObjectsOf(t).Some? && w in Select(db, ids, ObjectsOf(t).value)
    ensures w in db.websites && Keeps(db, ids, ObjectsOf(t).value, w)
    ensures t != AllWebsitesTable ==> !Recorded(db, w)
  {
  }

  /** The columns of a table configuration. */
  datatype TableSpec = TableSpec(
    fieldNames: seq<string>,
    fieldHidden: seq<string>,
    exclude: seq<string>,
    rowId: string,
    items: seq<string>)

  const WebsiteFields: seq<string> := [
    "id", "url", "risk_score__risk_score", "risk_score__name", "reported_by__reporter",
    "created_at", "assigned_to__username", "website_type__type", "website_type__id",
    "screenshot", "website_category__category"]

  const ShortFields: seq<string> := [
    "id", "url", "risk_score__risk_score", "risk_score__name", "reported_by__reporter",
    "created_at", "assigned_to__username", "screenshot"]

  const CategoryFields: seq<string> := ShortFields + ["website_category__category"]

  const FakeShopFields: seq<string> := [
    "id", "url", "product_name", "website__risk_score__name", "website__risk_score__risk_score",
    "suspected_fraud_search", "suspected_fraud_price_comparison", "suspected_fraud_payment_method",
    "suspected_fraud_company_data", "suspected_fraud_vat", "suspected_fraud_domain",
    "suspected_fraud_images", "suspected_fraud_website_text", "suspected_fraud_quality_mark_seal",
    "website__assigned_to__username", "website__screenshot"]

  const CounterfeiterFields: seq<string> := [
    "id", "url", "website__risk_score__risk_score", "website__risk_score__name",
    "domain_is_counterfeiter", "imprint_is_counterfeiter", "language_is_counterfeiter",
    "website__assigned_to__username", "website__screenshot"]

  function Table(t: TableView): TableSpec
  {
    match t
    case AllWebsitesTable =>
      TableSpec(WebsiteFields, ["risk_score__name", "website_type__id", "screenshot"],
                ["risk_score__name", "website_type__id", "screenshot"], "id", ["edit", "delete"])
    case ToCheckTable =>
      TableSpec(WebsiteFields, ["risk_score__name", "website_type__id", "screenshot"],
                ["risk_score__name", "website_type__id", "screenshot"], "id", ["check_website", "edit", "delete"])
    case WithoutVerificationTable =>
      TableSpec(ShortFields, ["risk_score__name", "screenshot"], ["risk_score__name", "screenshot"], "id", ["edit", "delete"])
    case UnsureTable =>
      TableSpec(ShortFields, ["risk_score__name", "screenshot"], ["risk_score__name", "screenshot"], "id", ["edit", "delete"])
    case DisagreementTable =>
      TableSpec(ShortFields, ["risk_score__name", "screenshot"], ["risk_score__name", "screenshot"], "id", ["edit", "delete"])
    case FakeShopTable =>
      TableSpec(FakeShopFields, ["website__risk_score__name", "website__screenshot"],
                ["website__risk_score__name", "website__screenshot"], "id", ["details", "edit", "delete"])
    case CounterfeitersTable =>
      TableSpec(CounterfeiterFields, ["website__risk_score__name", "website__screenshot"],
                ["website__risk_score__name", "website__screenshot"], "id", ["details", "edit", "delete"])
    case NoFakeTable =>
      TableSpec(CategoryFields, ["risk_score__name", "screenshot", "website_category__category"],
                ["risk_score__name", "screenshot"], "id", ["edit", "delete"])
    case OtherTable =>
      TableSpec(CategoryFields, ["risk_score__name", "screenshot", "website_category__category"],
                ["risk_score__name", "screenshot"], "id", ["edit", "delete"])
    case OnlineShopsTable =>
      TableSpec(CategoryFields, ["risk_score__name", "screenshot", "website_category__category"],
                ["risk_score__name", "screenshot"], "id", ["edit", "delete"])
  }

  /** The well-formedness the table engine relies on: hidden and excluded
      columns are columns, the row id is a column, and the action columns
      neither repeat a field nor take the names of the id and add cells. */
  predicate WellFormed(s: TableSpec)
  {
    ColumnsKnown(s) && ActionsFree(s)
  }

  predicate ColumnsKnown(s: TableSpec)
  {
    (forall h :: h in s.fieldHidden ==> h in s.fieldNames) &&
    (forall e :: e in s.exclude ==> e in s.fieldNames) &&
    s.rowId in s.fieldNames
  }

  /** No name of the id cell, the add cell or an action column is a field
      name, and no action column is named like the id or add cell. */
  predicate ActionsFree(s: TableSpec)
  {
    NoneIn(["DT_RowId", "add"] + s.items, s.fieldNames) && NoneIn(s.items, ["DT_RowId", "add"])
  }

  predicate NoneIn(us: seq<string>, fs: seq<string>)
  {
    forall i, j :: 0 <= i < |us| && 0 <= j < |fs| ==> us[i] != fs[j]
  }

  /** What the well-formedness gives the table engine. */
  lemma WellFormedMeans(s: TableSpec)
    requires WellFormed(s)
    ensures forall h :: h in s.fieldHidden ==> h in s.fieldNames
    ensures forall e :: e in s.exclude ==> e in s.fieldNames
    ensures s.rowId in s.fieldNames
    ensures "DT_RowId" !in s.fieldNames && "add" !in s.fieldNames
    ensures forall u :: u in s.items ==> u !in s.fieldNames && u != "DT_RowId" && u != "add"
  {
    var us := ["DT_RowId", "add"] + s.items;
    assert us[0] == "DT_RowId" && us[1] == "add";
    forall u | u in s.items
      ensures u !in s.fieldNames && u != "DT_RowId" && u != "add"
    {
      var i :| 0 <= i < |s.items| && s.items[i] == u;
      assert us[i + 2] == u;
    }
  }

  /** Every table configuration of the website views is well-formed. */
  lemma TablesWellFormed(t: TableView)
    ensures WellFormed(Table(t))
  {
    match t
    case AllWebsitesTable => WebsiteTableWellFormed(Table(t));
    case ToCheckTable => WebsiteTableWellFormed(Table(t));
    case WithoutVerificationTable => ShortTableWellFormed(Table(t));
    case UnsureTable => ShortTableWellFormed(Table(t));
    case DisagreementTable => ShortTableWellFormed(Table(t));
    case FakeShopTable => FakeShopTableWellFormed();
    case CounterfeitersTable => CounterfeitersTableWellFormed();
    case NoFakeTable => CategoryTableWellFormed(Table(t));
    case OtherTable => CategoryTableWellFormed(Table(t));
    case OnlineShopsTable => CategoryTableWellFormed(Table(t));
  }

  lemma WebsiteTableWellFormed(s: TableSpec)
    requires s.fieldNames == WebsiteFields && s.rowId == "id"
    requires s.fieldHidden == s.exclude == ["risk_score__name", "website_type__id", "screenshot"]
    requires s.items == ["edit", "delete"] || s.items == ["check_website", "edit", "delete"]
    ensures WellFormed(s)
  {
  }

  lemma ShortTableWellFormed(s: TableSpec)
    requires s.fieldNames == ShortFields && s.rowId == "id"
    requires s.fieldHidden == s.exclude == ["risk_score__name", "screenshot"]
    requires s.items == ["edit", "delete"]
    ensures WellFormed(s)
  {
  }

  lemma FakeShopTableWellFormed()
    ensures WellFormed(Table(FakeShopTable))
  {
    FakeShopColumnsKnown();
    FakeShopActionsFree();
  }

  lemma FakeShopActionsFree()
    ensures ActionsFree(Table(FakeShopTable))
  {
  }

  lemma FakeShopColumnsKnown()
    ensures ColumnsKnown(Table(FakeShopTable))
  {
  }

  lemma CounterfeitersTableWellFormed()
    ensures WellFormed(Table(CounterfeitersTable))
  {
  }

  lemma CategoryTableWellFormed(s: TableSpec)
    requires s.fieldNames == CategoryFields && s.rowId == "id"
    requires s.fieldHidden == ["risk_score__name", "screenshot", "website_category__category"]
    requires s.exclude == ["risk_score__name", "screenshot"]
    requires s.items == ["edit", "delete"]
    ensures WellFormed(s)
  {
  }
}

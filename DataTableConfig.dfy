/** The declarative description of a data table and what the view derives
    from it before any row is produced: the permission of each row action,
    the column manifest handed to the browser, and the renaming of
    annotated field names. */
module DataTableConfig {
  import opened Common
  import opened Utils
  import opened DataTableRecords

  /** The keys a url entry may carry besides its field name. */
  datatype UrlOptions = UrlOptions(
    permissions: Option<seq<string>>,
    href: Option<string>,
    id: Option<string>,
    template: Option<string>,
    context: Option<map<string, Cell>>,
    attrs: Option<map<string, Cell>>)

  /** One row action ("edit", "delete", ...). */
  datatype UrlItem = UrlItem(fieldName: string, opts: UrlOptions)

  datatype AddLink = AddLink(permissions: Option<seq<string>>)

  datatype Urls = Urls(items: seq<UrlItem>, defaults: UrlOptions, add: Option<AddLink>)

  datatype CustomFilter = CustomFilter(
    classes: Option<string>,
    inputType: Option<string>,
    options: Option<seq<(string, string)>>)

  datatype FieldFilters = FieldFilters(
    regexEnabled: seq<string>,
    exclude: Option<seq<string>>,
    defaultClasses: Option<string>,
    custom: map<string, CustomFilter>,
    searchTypes: map<string, string>)

  datatype Config = Config(
    fieldNames: seq<string>,
    fieldClasses: map<string, seq<string>>,
    fieldHidden: seq<string>,
    fieldLabels: map<string, string>,
    fieldTemplates: map<string, string>,
    fieldOutputs: map<string, string>,
    responsivePriorities: map<string, Option<int>>,
    urls: Urls,
    rowId: Option<string>,
    filters: FieldFilters)

  /** One entry of the column manifest. `hide` only exists on field
      columns and `responsivePriority` only where one is configured. */
  datatype Column = Column(cls: string, data: string, hide: Option<bool>, priority: Option<int>)

  // ---------------------------------------------------------------------
  // init_permissions

  /** has_permission after the loop over the url items: one entry per field
      name, the last item with a name deciding. */
  function PermissionMap(user: set<string>, items: seq<UrlItem>): map<string, bool>
    decreases |items|
  {
    if items == [] then map[]
    else
      var last := items[|items| - 1];
      PermissionMap(user, items[..|items| - 1])[last.fieldName := HasPerms(user, last.opts.permissions)]
  }

  /** Every url item has an entry, and the entry is decided by the last item
      of that name. */
  lemma {:induction false} PermissionMapLastWins(user: set<string>, items: seq<UrlItem>, i: nat)
    requires i < |items|
    requires forall j :: i < j < |items| ==> items[j].fieldName != items[i].fieldName
    ensures items[i].fieldName in PermissionMap(user, items)
    ensures PermissionMap(user, items)[items[i].fieldName] == HasPerms(user, items[i].opts.permissions)
    decreases |items|
  {
    if i < |items| - 1 {
      PermissionMapLastWins(user, items[..|items| - 1], i);
    }
  }

  lemma {:induction false} PermissionMapKeys(user: set<string>, items: seq<UrlItem>)
    ensures forall k :: k in PermissionMap(user, items) <==> exists j :: 0 <= j < |items| && items[j].fieldName == k
    decreases |items|
  {
    if items != [] {
      var init := items[..|items| - 1];
      PermissionMapKeys(user, init);
      forall k | k in PermissionMap(user, items)
        ensures exists j :: 0 <= j < |items| && items[j].fieldName == k
      {
        if k != items[|items| - 1].fieldName {
          assert k in PermissionMap(user, init);
          var j :| 0 <= j < |init| && init[j].fieldName == k;
          assert items[j] == init[j];
        }
      }
      forall k | exists j :: 0 <= j < |items| && items[j].fieldName == k
        ensures k in PermissionMap(user, items)
      {
        var j :| 0 <= j < |items| && items[j].fieldName == k;
        if j < |items| - 1 {
          assert init[j] == items[j];
        }
      }
    }
  }

  // ---------------------------------------------------------------------
  // The column manifest

  function ClassList(cfg: Config, name: string): string
  {
    Join(if name in cfg.fieldClasses then cfg.fieldClasses[name] else [], " ")
  }

  /** get_responsive_priority: only a configured, non-None value is set. */
  function Priority(cfg: Config, name: string): (r: Option<int>)
    ensures r.Some? <==> name in cfg.responsivePriorities && cfg.responsivePriorities[name].Some?
  {
    if name in cfg.responsivePriorities then cfg.responsivePriorities[name] else None
  }

  /** The CSS class of a field column: "__" and "_" become "-". */
  function FieldClass(cfg: Config, name: string): string
  {
    Replace(Replace(name, "__", "-"), "_", "-") + " " + ClassList(cfg, name)
  }

  const AddColumn: Column := Column("icon-table", "add", None, Some(0))

  function FieldColumn(cfg: Config, name: string): Column
  {
    Column(FieldClass(cfg, name), name, Some(name in cfg.fieldHidden), Priority(cfg, name))
  }

  function ActionColumn(cfg: Config, name: string): Column
  {
    Column("icon-table " + ClassList(cfg, name), name, None, Priority(cfg, name))
  }

  function FieldColumns(cfg: Config): (r: seq<Column>)
    ensures |r| == |cfg.fieldNames|
  {
    seq(|cfg.fieldNames|, i requires 0 <= i < |cfg.fieldNames| => FieldColumn(cfg, cfg.fieldNames[i]))
  }

  /** The url items whose permission is granted, in order. */
  function PermittedItems(items: seq<UrlItem>, perm: map<string, bool>): (r: seq<UrlItem>)
    requires forall j :: 0 <= j < |items| ==> items[j].fieldName in perm
    ensures |r| <= |items|
    decreases |items|
  {
    if items == [] then []
    else (if perm[items[0].fieldName] then [items[0]] else []) + PermittedItems(items[1..], perm)
  }

  function ActionColumns(cfg: Config, items: seq<UrlItem>): (r: seq<Column>)
    ensures |r| == |items|
  {
    seq(|items|, i requires 0 <= i < |items| => ActionColumn(cfg, items[i].fieldName))
  }

  predicate AllKnown(items: seq<UrlItem>, perm: map<string, bool>)
  {
    forall j :: 0 <= j < |items| ==> items[j].fieldName in perm
  }

  /** init_data_table_fields as a value: the add column, one column per
      field, one per permitted action; no field names is a configuration
      error and an action without a permission entry a KeyError. */
  function Manifest(cfg: Config, perm: map<string, bool>): Result<seq<Column>>
  {
    if cfg.fieldNames == [] then Err("ImproperlyConfigured")
    else if !AllKnown(cfg.urls.items, perm) then Err("KeyError")
    else Ok([AddColumn] + FieldColumns(cfg) + ActionColumns(cfg, PermittedItems(cfg.urls.items, perm)))
  }

  class DataTable {
    var hasPermission: map<string, bool>
    var hasAddPermission: bool
    var hasAutoreload: bool

    constructor()
      ensures hasPermission == map[] && !hasAddPermission && !hasAutoreload
    {
      hasPermission := map[];
      hasAddPermission := false;
      hasAutoreload := false;
    }

    /** init_permissions */
    method InitPermissions(user: set<string>, urls: Urls)
      modifies this
      ensures hasPermission == PermissionMap(user, urls.items)
      ensures hasAddPermission == (urls.add.Some? && HasPerms(user, urls.add.value.permissions))
      ensures !hasAutoreload
    {
      hasAutoreload := false;
      hasAddPermission := false;
      var perm := map[];
      var i := 0;
      while i < |urls.items|
        invariant 0 <= i <= |urls.items|
        invariant perm == PermissionMap(user, urls.items[..i])
      {
        var url := urls.items[i];
        perm := perm[url.fieldName := HasPerms(user, url.opts.permissions)];
        assert urls.items[..i + 1][..i] == urls.items[..i];
        i := i + 1;
      }
      assert urls.items[..i] == urls.items;
      hasPermission := perm;
      if urls.add.Some? {
        hasAddPermission := HasPerms(user, urls.add.value.permissions);
      }
    }

    /** init_data_table_fields: appends the columns one by one. */
    method InitFields(cfg: Config) returns (r: Result<seq<Column>>)
      ensures r == Manifest(cfg, hasPermission)
    {
      if cfg.fieldNames == [] {
        return Err("ImproperlyConfigured");
      }
      var columns := [AddColumn];
      var i := 0;
      while i < |cfg.fieldNames|
        invariant 0 <= i <= |cfg.fieldNames|
        invariant columns == [AddColumn] + FieldColumns(cfg)[..i]
      {
        columns := columns + [FieldColumn(cfg, cfg.fieldNames[i])];
        assert FieldColumns(cfg)[..i + 1] == FieldColumns(cfg)[..i] + [FieldColumn(cfg, cfg.fieldNames[i])];
        i := i + 1;
      }
      assert FieldColumns(cfg)[..i] == FieldColumns(cfg);
      var items := cfg.urls.items;
      var j := 0;
      ghost var permitted: seq<UrlItem> := [];
      while j < |items|
        invariant 0 <= j <= |items|
        invariant AllKnown(items[..j], hasPermission)
        invariant permitted == PermittedItems(items[..j], hasPermission)
        invariant columns == [AddColumn] + FieldColumns(cfg) + ActionColumns(cfg, permitted)
      {
        var name := items[j].fieldName;
        if name !in hasPermission {
          assert !AllKnown(items, hasPermission);
          return Err("KeyError");
        }
        PermittedSnoc(items[..j], items[j], hasPermission);
        assert items[..j + 1] == items[..j] + [items[j]];
        if hasPermission[name] {
          columns := columns + [ActionColumn(cfg, name)];
          assert ActionColumns(cfg, permitted + [items[j]]) == ActionColumns(cfg, permitted) + [ActionColumn(cfg, name)];
          permitted := permitted + [items[j]];
        }
        j := j + 1;
      }
      assert items[..j] == items;
      r := Ok(columns);
    }
  }

  lemma {:induction false} PermittedSnoc(items: seq<UrlItem>, x: UrlItem, perm: map<string, bool>)
    requires AllKnown(items, perm) && x.fieldName in perm
    ensures AllKnown(items + [x], perm)
    ensures PermittedItems(items + [x], perm)
         == PermittedItems(items, perm) + (if perm[x.fieldName] then [x] else [])
    decreases |items|
  {
    if items == [] {
      assert [x][1..] == [];
    } else {
      assert (items + [x])[1..] == items[1..] + [x];
      PermittedSnoc(items[1..], x, perm);
    }
  }

  // ---------------------------------------------------------------------
  // Properties of the manifest

  lemma {:induction false} PermittedItemsSpec(items: seq<UrlItem>, perm: map<string, bool>)
    requires AllKnown(items, perm)
    ensures forall x :: x in PermittedItems(items, perm) <==> x in items && perm[x.fieldName]
    decreases |items|
  {
    if items != [] {
      PermittedItemsSpec(items[1..], perm);
    }
  }

  /** The manifest's three parts, in order: the add column, one column per
      field name with `hide` set exactly for hidden names, and one column
      per permitted url item. */
  lemma ManifestShape(cfg: Config, perm: map<string, bool>)
    requires Manifest(cfg, perm).Ok?
    ensures var cols := Manifest(cfg, perm).value;
      var acts := PermittedItems(cfg.urls.items, perm);
      |cols| == 1 + |cfg.fieldNames| + |acts| &&
      cols[0] == Column("icon-table", "add", None, Some(0)) &&
      (forall i :: 0 <= i < |cfg.fieldNames| ==>
        cols[1 + i].data == cfg.fieldNames[i] &&
        cols[1 + i].hide == Some(cfg.fieldNames[i] in cfg.fieldHidden)) &&
      (forall i :: 0 <= i < |acts| ==>
        cols[1 + |cfg.fieldNames| + i].data == acts[i].fieldName &&
        cols[1 + |cfg.fieldNames| + i].hide.None? &&
        acts[i].fieldName in perm && perm[acts[i].fieldName])
  {
    var acts := PermittedItems(cfg.urls.items, perm);
    PermittedItemsSpec(cfg.urls.items, perm);
    var cols := Manifest(cfg, perm).value;
    var fc := FieldColumns(cfg);
    var ac := ActionColumns(cfg, acts);
    assert cols == [AddColumn] + fc + ac;
    forall i | 0 <= i < |cfg.fieldNames| ensures cols[1 + i] == FieldColumn(cfg, cfg.fieldNames[i]) {
      assert cols[1 + i] == fc[i];
    }
    forall i | 0 <= i < |acts|
      ensures cols[1 + |cfg.fieldNames| + i] == ActionColumn(cfg, acts[i].fieldName)
      ensures acts[i].fieldName in perm && perm[acts[i].fieldName]
    {
      assert cols[1 + |cfg.fieldNames| + i] == ac[i];
      assert acts[i] in acts;
    }
  }

  /** A column carries a responsive priority exactly when one is configured
      (the add column always has 0). */
  lemma ManifestPriorities(cfg: Config, perm: map<string, bool>, k: nat)
    requires Manifest(cfg, perm).Ok?
    requires 0 < k < |Manifest(cfg, perm).value|
    ensures var c := Manifest(cfg, perm).value[k];
      c.priority.Some? <==> c.data in cfg.responsivePriorities && cfg.responsivePriorities[c.data].Some?
    ensures Manifest(cfg, perm).value[0].priority == Some(0)
  {
    var cols := Manifest(cfg, perm).value;
    var acts := PermittedItems(cfg.urls.items, perm);
    assert cols == [AddColumn] + FieldColumns(cfg) + ActionColumns(cfg, acts);
    if k <= |cfg.fieldNames| {
      assert cols[k] == FieldColumns(cfg)[k - 1];
    } else {
      assert cols[k] == ActionColumns(cfg, acts)[k - 1 - |cfg.fieldNames|];
    }
  }

  /** A denied action never gets a column. */
  lemma ManifestOmitsDenied(cfg: Config, perm: map<string, bool>, x: UrlItem)
    requires Manifest(cfg, perm).Ok?
    requires x in cfg.urls.items && !perm[x.fieldName]
    ensures x !in PermittedItems(cfg.urls.items, perm)
  {
    PermittedItemsSpec(cfg.urls.items, perm);
  }

  lemma {:induction false} ReplaceRemovesAll(s: string, c: char)
    ensures c !in Replace(s, [c], "-") || c == '-'
    decreases |s|
  {
    if s != [] {
      ReplaceRemovesAll(s[1..], c);
      if s[..1] != [c] {
        assert s[0] != c;
      }
    }
  }

  /** A field column's class names contain no underscore before the
      configured classes. */
  lemma FieldClassHasNoUnderscore(cfg: Config, name: string)
    ensures var head := Replace(Replace(name, "__", "-"), "_", "-"); '_' !in head
    ensures FieldClass(cfg, name) == Replace(Replace(name, "__", "-"), "_", "-") + " " + ClassList(cfg, name)
  {
    ReplaceRemovesAll(Replace(name, "__", "-"), '_');
  }

  // ---------------------------------------------------------------------
  // init_data_table_annotations

  function Rename(name: string, annotations: set<string>, suffix: string): string
  {
    if name in annotations then name + suffix else name
  }

  function RenameAll(names: seq<string>, annotations: set<string>, suffix: string): (r: seq<string>)
    ensures |r| == |names|
    ensures forall i :: 0 <= i < |names| ==> r[i] == Rename(names[i], annotations, suffix)
  {
    seq(|names|, i requires 0 <= i < |names| => Rename(names[i], annotations, suffix))
  }

  /** A dict setting with annotated keys renamed (see the README for keys
      that collide after renaming). */
  function RenameKeys<V>(m: map<string, V>, annotations: set<string>, suffix: string): map<string, V>
  {
    map k | k in (set j | j in m :: Rename(j, annotations, suffix)) ::
      if EndsWith(k, suffix) && k[..|k| - |suffix|] in m && k[..|k| - |suffix|] in annotations
      then m[k[..|k| - |suffix|]]
      else m[k]
  }

  /** init_data_table_annotations: the names in field_names and the keys of
      the per-field dicts get the suffix when they are annotated; every
      other setting (field_hidden, urls, row_id, the lists inside
      field_filters) is kept as it is. */
  function InitAnnotations(cfg: Config, annotations: set<string>, suffix: string): Config
  {
    cfg.(
      fieldNames := RenameAll(cfg.fieldNames, annotations, suffix),
      fieldClasses := RenameKeys(cfg.fieldClasses, annotations, suffix),
      fieldLabels := RenameKeys(cfg.fieldLabels, annotations, suffix),
      fieldTemplates := RenameKeys(cfg.fieldTemplates, annotations, suffix),
      fieldOutputs := RenameKeys(cfg.fieldOutputs, annotations, suffix),
      responsivePriorities := RenameKeys(cfg.responsivePriorities, annotations, suffix),
      filters := cfg.filters.(searchTypes := RenameKeys(cfg.filters.searchTypes, annotations, suffix)))
  }

  /** Without annotations nothing changes. */
  lemma InitAnnotationsNone(cfg: Config, suffix: string)
    ensures InitAnnotations(cfg, {}, suffix) == cfg
  {
    var c := InitAnnotations(cfg, {}, suffix);
    assert c.fieldNames == cfg.fieldNames;
    assert c.fieldClasses == cfg.fieldClasses;
    assert c.fieldLabels == cfg.fieldLabels;
    assert c.fieldTemplates == cfg.fieldTemplates;
    assert c.fieldOutputs == cfg.fieldOutputs;
    assert c.responsivePriorities == cfg.responsivePriorities;
    assert c.filters.searchTypes == cfg.filters.searchTypes;
  }

  /** An annotated field keeps its settings under the renamed key, while a
      hidden annotated field is no longer matched by field_hidden. */
  lemma InitAnnotationsRenames(cfg: Config, annotations: set<string>, suffix: string, i: nat)
    requires i < |cfg.fieldNames| && cfg.fieldNames[i] in annotations
    requires suffix != []
    requires cfg.fieldNames[i] in cfg.fieldClasses
    ensures var c := InitAnnotations(cfg, annotations, suffix);
      c.fieldNames[i] == cfg.fieldNames[i] + suffix &&
      c.fieldHidden == cfg.fieldHidden &&
      c.fieldNames[i] in c.fieldClasses &&
      c.fieldClasses[c.fieldNames[i]] == cfg.fieldClasses[cfg.fieldNames[i]]
  {
    var n := cfg.fieldNames[i];
    var c := InitAnnotations(cfg, annotations, suffix);
    assert n + suffix in (set j | j in cfg.fieldClasses :: Rename(j, annotations, suffix));
    assert (n + suffix)[..|n + suffix| - |suffix|] == n;
    assert EndsWith(n + suffix, suffix) by {
      assert (n + suffix)[|n + suffix| - |suffix|..] == suffix;
    }
  }
}

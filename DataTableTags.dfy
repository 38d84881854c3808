/** The template filters that read the table description when the table
    and its search inputs are rendered. Field names reach them after the
    annotation suffix was appended, so the per-field filter settings are
    looked up under the name with the suffix removed. */
module DataTableTags {
  import opened Common
  import opened DataTableConfig

  /** has_permission.get(name) is truthy. */
  predicate Granted(perm: map<string, bool>, u: UrlItem)
  {
    u.fieldName in perm && perm[u.fieldName]
  }

  /** get_items */
  function GetItems(cfg: Config, perm: map<string, bool>): (r: seq<UrlItem>)
    ensures forall u :: u in r <==> u in cfg.urls.items && Granted(perm, u)
  {
    Filter(cfg.urls.items, u => Granted(perm, u))
  }

  /** get_labels: one entry per field name, None where no label is set. */
  function GetLabels(cfg: Config): (r: seq<Option<string>>)
    ensures |r| == |cfg.fieldNames|
    ensures forall i :: 0 <= i < |r| ==>
      (r[i].Some? <==> cfg.fieldNames[i] in cfg.fieldLabels) &&
      (r[i].Some? ==> r[i].value == cfg.fieldLabels[cfg.fieldNames[i]])
  {
    seq(|cfg.fieldNames|, i requires 0 <= i < |cfg.fieldNames| => GetLabel(cfg, cfg.fieldNames[i]))
  }

  /** get_label */
  function GetLabel(cfg: Config, field: string): (r: Option<string>)
    ensures r.Some? <==> field in cfg.fieldLabels
    ensures r.Some? ==> r.value == cfg.fieldLabels[field]
  {
    if field in cfg.fieldLabels then Some(cfg.fieldLabels[field]) else None
  }

  /** columns_counter: labels, permitted actions and the add button. */
  function ColumnsCounter(cfg: Config, perm: map<string, bool>): (r: nat)
    ensures r == |cfg.fieldNames| + |GetItems(cfg, perm)| + 1
  {
    |GetLabels(cfg)| + |GetItems(cfg, perm)| + 1
  }

  /** Where every action has a permission entry, get_items picks the same
      items as the manifest. */
  lemma {:induction false} GetItemsIsPermitted(items: seq<UrlItem>, perm: map<string, bool>)
    requires AllKnown(items, perm)
    ensures Filter(items, u => Granted(perm, u)) == PermittedItems(items, perm)
    decreases |items|
  {
    if items != [] {
      assert AllKnown(items[1..], perm) by {
        forall j | 0 <= j < |items[1..]| ensures items[1..][j].fieldName in perm {
          assert items[1..][j] == items[j + 1];
        }
      }
      GetItemsIsPermitted(items[1..], perm);
    }
  }

  /** The rendered header has as many cells as the manifest has columns. */
  lemma ColumnsCounterMatchesManifest(cfg: Config, perm: map<string, bool>)
    requires Manifest(cfg, perm).Ok?
    ensures ColumnsCounter(cfg, perm) == |Manifest(cfg, perm).value|
  {
    GetItemsIsPermitted(cfg.urls.items, perm);
    ManifestShape(cfg, perm);
  }

  /** get_items keeps the url items in their original order. */
  lemma GetItemsOrder(cfg: Config, perm: map<string, bool>, a: seq<UrlItem>, b: seq<UrlItem>)
    requires cfg.urls.items == a + b
    ensures GetItems(cfg, perm) == Filter(a, u => Granted(perm, u)) + Filter(b, u => Granted(perm, u))
  {
    FilterConcat(a, b, u => Granted(perm, u));
  }

  // ---------------------------------------------------------------------
  // Search inputs

  /** field_name.replace(ANNOTATION_FIELD_SUFFIX, "") */
  function StripSuffix(name: string, suffix: string): string
  {
    Replace(name, suffix, "")
  }

  function CustomOf(ff: FieldFilters, name: string, suffix: string): Option<CustomFilter>
  {
    var key := StripSuffix(name, suffix);
    if key in ff.custom then Some(ff.custom[key]) else None
  }

  /** get_input_type */
  function GetInputType(ff: FieldFilters, name: string, suffix: string): (r: string)
    ensures CustomOf(ff, name, suffix).None? ==> r == "text"
    ensures CustomOf(ff, name, suffix).Some? && CustomOf(ff, name, suffix).value.inputType.Some? ==>
      r == CustomOf(ff, name, suffix).value.inputType.value
  {
    match CustomOf(ff, name, suffix)
    case Some(f) => f.inputType.GetOr("text")
    case None => "text"
  }

  /** get_select_options */
  function GetSelectOptions(ff: FieldFilters, name: string, suffix: string): (r: seq<(string, string)>)
    ensures CustomOf(ff, name, suffix).None? ==> r == [("", "")]
    ensures CustomOf(ff, name, suffix).Some? && CustomOf(ff, name, suffix).value.options.Some? ==>
      r == CustomOf(ff, name, suffix).value.options.value
  {
    match CustomOf(ff, name, suffix)
    case Some(f) => f.options.GetOr([("", "")])
    case None => [("", "")]
  }

  /** get_field_class: the field's own classes, else the table default,
      else the stock grid class. */
  function GetFieldClass(ff: FieldFilters, name: string, suffix: string): (r: string)
    ensures CustomOf(ff, name, suffix).Some? && CustomOf(ff, name, suffix).value.classes.Some? ==>
      r == CustomOf(ff, name, suffix).value.classes.value
    ensures (CustomOf(ff, name, suffix).None? || CustomOf(ff, name, suffix).value.classes.None?) ==>
      r == ff.defaultClasses.GetOr("col-12 col-md-3")
  {
    var fallback := ff.defaultClasses.GetOr("col-12 col-md-3");
    match CustomOf(ff, name, suffix)
    case Some(f) => f.classes.GetOr(fallback)
    case None => fallback
  }

  /** is_filter_excluded (the name is compared as given). */
  function IsFilterExcluded(ff: FieldFilters, name: string): (r: bool)
    ensures r <==> ff.exclude.Some? && name in ff.exclude.value
  {
    match ff.exclude
    case Some(xs) => |xs| > 0 && name in xs
    case None => false
  }

  /** has_regex_enabled */
  function HasRegexEnabled(ff: FieldFilters, name: string, suffix: string): (r: bool)
    ensures r <==> StripSuffix(name, suffix) in ff.regexEnabled
  {
    StripSuffix(name, suffix) in ff.regexEnabled
  }

  // ---------------------------------------------------------------------
  // The suffix round trip

  /** The suffix does not occur in `name + suffix` before its end. */
  predicate OnlyAtEnd(name: string, suffix: string)
  {
    forall i :: 0 <= i < |name| ==> !StartsWith((name + suffix)[i..], suffix)
  }

  lemma {:induction false} StripAppended(name: string, suffix: string)
    requires suffix != [] && OnlyAtEnd(name, suffix)
    ensures StripSuffix(name + suffix, suffix) == name
    decreases |name|
  {
    if name == [] {
      assert name + suffix == suffix;
      assert suffix[..|suffix|] == suffix;
      assert suffix[|suffix|..] == [];
      assert Replace(suffix, suffix, "") == "" + Replace([], suffix, "");
    } else {
      var s := name + suffix;
      assert s[0..] == s;
      assert !StartsWith(s, suffix);
      assert s[..|suffix|] != suffix;
      assert s[1..] == name[1..] + suffix;
      assert Replace(s, suffix, "") == [s[0]] + Replace(s[1..], suffix, "");
      assert OnlyAtEnd(name[1..], suffix) by {
        forall i | 0 <= i < |name[1..]| ensures !StartsWith((name[1..] + suffix)[i..], suffix) {
          assert (name[1..] + suffix)[i..] == s[i + 1..];
        }
      }
      StripAppended(name[1..], suffix);
    }
  }

  lemma OnlyAtEndAbsent(name: string, suffix: string)
    requires suffix != [] && OnlyAtEnd(name, suffix)
    ensures StripSuffix(name, suffix) == name
  {
    if Contains(name, suffix) {
      var i := ContainsAt(name, suffix);
      assert (name + suffix)[i..][..|suffix|] == name[i..i + |suffix|];
      assert StartsWith((name + suffix)[i..], suffix);
      assert false;
    }
    ReplaceAbsent(name, suffix, "");
  }

  /** Removing the suffix recovers the configured field name, whether it
      was annotated or not. */
  lemma StripRenamed(name: string, annotations: set<string>, suffix: string)
    requires suffix != [] && OnlyAtEnd(name, suffix)
    ensures StripSuffix(Rename(name, annotations, suffix), suffix) == name
  {
    if name in annotations {
      StripAppended(name, suffix);
    } else {
      OnlyAtEndAbsent(name, suffix);
    }
  }

  /** So the search inputs of an annotated field show the settings written
      for the plain name. */
  lemma InputsFollowRenaming(cfg: Config, name: string, annotations: set<string>, suffix: string)
    requires suffix != [] && OnlyAtEnd(name, suffix)
    ensures var ff := InitAnnotations(cfg, annotations, suffix).filters;
      var n := Rename(name, annotations, suffix);
      GetInputType(ff, n, suffix) == GetInputType(cfg.filters, name, suffix) &&
      GetSelectOptions(ff, n, suffix) == GetSelectOptions(cfg.filters, name, suffix) &&
      GetFieldClass(ff, n, suffix) == GetFieldClass(cfg.filters, name, suffix) &&
      HasRegexEnabled(ff, n, suffix) == (name in cfg.filters.regexEnabled)
  {
    StripRenamed(name, annotations, suffix);
    OnlyAtEndAbsent(name, suffix);
    var ff := InitAnnotations(cfg, annotations, suffix).filters;
    assert ff.custom == cfg.filters.custom;
    assert ff.defaultClasses == cfg.filters.defaultClasses;
    assert ff.regexEnabled == cfg.filters.regexEnabled;
  }
}

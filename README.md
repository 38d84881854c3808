# mal2 fake-shop detection database — decision logic in Dafny

The mal2 database is a Django back office in which analysts record web
shops suspected of fraud (fake shops) or of selling counterfeit brands
(brand counterfeiters), check them, and classify them. This project models
the deterministic decision logic underneath the web pages and proves
properties of it:

- the **data-table engine** (`db/mal2/views/data_table.py` and the
  template filters in `db/mal2/templatetags/data_table_tags.py`): column
  manifests built from a declarative table configuration, the per-column
  search mini-language (`!`, `*`, `[a,b]`, `![..]`, `[m-n]`, globs),
  conjunctive column filters, ordering by a 1-based column index,
  `start`/`length` pagination and the `{draw, recordsTotal,
  recordsFiltered, data}` envelope, in both the query-backed and the
  in-memory list mode;
- the **conditional-requirement engine** of `FieldDependenciesMixin` and
  the inline formset validation (`db/mal2/forms/forms.py`), with
  `get_truth` (`db/mal2/utils/base.py`);
- **URL normalisation, duplicate detection and website classification**
  (`remove_url_protocol`, `re_escape`, the duplicate-URL checks of the
  forms and of the REST validator, the `WebsiteQuerySet` predicates);
- the small helpers: the Ajax form envelope, audit stamping, navbar
  ordering and margins, HTML attribute and class builders, `get_col_class`,
  the colour and upload fields, the phone-number widget, and the
  client-side `escapeText`, `csrfSafeMethod`, file-tree selection, wizard
  buttons and formset counters of `db/mal2/static_src/js/base.js`.

ORM querysets are sequences of records and filters are predicates over
them; template rendering and `reverse` are opaque constructors
(`DataTableOutput.Out`, `WebsiteViews.Response`); the current user, the
request data and the clock are parameters. Code that changes objects in
place is modelled by classes (`DataTableConfig.DataTable`,
`Forms.FieldDependencies`, `Forms.InlineFormSet`,
`Stamps.AuthTimeStamped`, `AjaxViews.AjaxFormView`, `Navbar.NavItem`,
`BaseTags.ClassList`, `Widgets.WidgetAttrs`, `ClientScript.FileTreeInput`,
`ClientScript.Wizard`, `ClientScript.FormSet`) whose methods are proved
against specification functions; the pure code is modelled by functions
and lemmas.

One module per source file; `Common` (strings, numbers, `Option`,
`Result`, filtering), `Dicts` (insertion-ordered dicts) and `Sorting`
(stable insertion sort) are shared helpers.

## Model

| member | source | states |
|---|---|---|
| Utils.AllHeld | db/mal2/utils/base.py:59-61 | true exactly when the user holds every listed permission |
| Utils.HasPerms | db/mal2/utils/base.py:55-61 | a missing or empty permission list always passes; otherwise true exactly when every listed permission is held |
| Utils.HasPermsMonotone | db/mal2/utils/base.py:55-61 | a user with more permissions passes every check a user with fewer passes |
| Utils.RemoveUrlProtocolIsLowerCase | db/mal2/utils/base.py:92-95 | the normalised url is lower case |
| Utils.StripSchemeHttp | db/mal2/utils/base.py:93 | the scheme pattern removes a leading `http://` exactly when the rest is one line (`.` does not match a newline) |
| Utils.StripSchemeHttps | db/mal2/utils/base.py:93 | the same for a leading `https://` |
| Utils.SchemesAgree | db/mal2/utils/base.py:92-95 | `http://u` and `https://u` normalise to the same string |
| Utils.RemoveUrlProtocolOfHttps | db/mal2/utils/base.py:92-95 | for a lower-case one-line `u`, normalising `https://u` gives `u` with at most one trailing `/` removed |
| Utils.RemoveUrlProtocolOnlyOnce | db/mal2/utils/base.py:92-95 | only one scheme is removed: `http://http://a/` becomes `http://a` |
| Utils.ReEscape | db/mal2/utils/base.py:101-117 | the output is as long as the input plus one backslash per special character |
| Utils.UnescapeReEscape | db/mal2/utils/base.py:101-117 | dropping the inserted backslashes gives back the pattern: each special character is prefixed and every other character is kept |
| Utils.ReEscapeGlobChars | db/mal2/utils/base.py:110 | `*` becomes `\*` and `?` becomes `\?` |
| Utils.ReEscapeConcat | db/mal2/utils/base.py:110-113 | escaping works character by character: it distributes over concatenation |
| Utils.PyEqReflexive | db/mal2/utils/base.py:157-167 | Python `==` on the modelled values is reflexive |
| Utils.PyEqSymmetric | db/mal2/utils/base.py:157-167 | Python `==` on the modelled values is symmetric |
| Utils.StrLtIrreflexive | db/mal2/utils/base.py:157-167 | string `<` is irreflexive |
| Utils.StrLtTotal | db/mal2/utils/base.py:157-167 | of two different strings one is `<` the other |
| Utils.StrLtAsymmetric | db/mal2/utils/base.py:157-167 | string `<` is asymmetric |
| Utils.StrLtTransitive | db/mal2/utils/base.py:157-167 | string `<` is transitive |
| Utils.Compare | db/mal2/utils/base.py:157-167 | the ordering operators fail only with TypeError (unorderable operands) |
| Utils.PyContains | db/mal2/utils/base.py:165 | `in`: membership by `==` for a list, substring for two strings, TypeError otherwise |
| Utils.GetTruth | db/mal2/utils/base.py:157-167 | `==` is equality, `in` is `b` contained in `a`, `>`, `<`, `>=`, `<=` are the comparisons, and KeyError is raised exactly for any other operator |
| Utils.CompareFlip | db/mal2/utils/base.py:157-167 | `a op b` equals `b op' a` with the mirrored operator, errors included |
| Utils.GetTruthFlip | db/mal2/utils/base.py:157-167 | `a > b` is `b < a` and `a >= b` is `b <= a` |
| Utils.GetTruthNumbers | db/mal2/utils/base.py:157-167 | on two numbers every ordering operator is the arithmetic comparison and never fails |
| DataTableConfig.PermissionMapLastWins | db/mal2/views/data_table.py:64-67 | the permission recorded for a field name is `has_perms` of its last url item |
| DataTableConfig.PermissionMapKeys | db/mal2/views/data_table.py:64-67 | the permission map has exactly the url items' field names as keys |
| DataTableConfig.Priority | db/mal2/views/data_table.py:175-186 | a column gets `responsivePriority` exactly when the configuration maps its name to a non-None value |
| DataTableConfig.FieldColumns | db/mal2/views/data_table.py:105-119 | one column per field name |
| DataTableConfig.PermittedItems | db/mal2/views/data_table.py:121-136 | never more permitted url items than url items |
| DataTableConfig.ActionColumns | db/mal2/views/data_table.py:121-136 | one column per permitted url item |
| DataTableConfig.DataTable.constructor | db/mal2/views/data_table.py:57-59 | a table starts with no permissions, no add permission and no autoreload |
| DataTableConfig.DataTable.InitPermissions | db/mal2/views/data_table.py:54-75 | the permission map is `has_perms` of each url item's permissions by field name, the add permission is `has_perms` of the add url's permissions (false without one), autoreload is reset |
| DataTableConfig.DataTable.InitFields | db/mal2/views/data_table.py:84-140 | the columns appended one by one are exactly the manifest; no field names is ImproperlyConfigured and an url item without a permission entry a KeyError |
| DataTableConfig.PermittedSnoc | db/mal2/views/data_table.py:121-123 | one more url item adds its column exactly when its permission is granted |
| DataTableConfig.PermittedItemsSpec | db/mal2/views/data_table.py:121-123 | the action columns are exactly the url items whose permission is granted |
| DataTableConfig.ManifestShape | db/mal2/views/data_table.py:99-136 | the manifest is the leading `add` column with priority 0, then one column per field name in order with `hide` true exactly for hidden names, then one column per permitted url item in item order |
| DataTableConfig.ManifestPriorities | db/mal2/views/data_table.py:175-186 | every later column has a priority exactly when the configuration maps its name to a non-None value |
| DataTableConfig.ManifestOmitsDenied | db/mal2/views/data_table.py:121-123 | an url item whose permission is denied gets no column |
| DataTableConfig.FieldClassHasNoUnderscore | db/mal2/views/data_table.py:106-109 | a field column's class is the name with `__` and `_` turned into `-` (no underscore left), then its configured classes |
| DataTableConfig.RenameAll | db/mal2/views/data_table.py:321-330 | every list entry that names an annotation gets the suffix; the list keeps its length and order |
| DataTableConfig.InitAnnotationsNone | db/mal2/views/data_table.py:306-345 | without annotations the configuration is unchanged |
| DataTableConfig.InitAnnotationsRenames | db/mal2/views/data_table.py:306-345 | an annotated field name gets the suffix, keeps its classes under the new name, and `field_hidden`, which is not renamed, is unchanged |
| DataTableRecords.Segments | db/mal2/views/data_table.py:264 | splitting a field path on `__` gives at least one segment |
| DataTableRecords.WalkOrNoneNull | db/mal2/views/data_table.py:263-274 | walking on from None stays None |
| DataTableRecords.GetFieldNameSteps | db/mal2/views/data_table.py:263-274 | the first step is `getattr(item, name, None)` and a relation step continues from the related object |
| DataTableRecords.WalkOrNoneMissing | db/mal2/views/data_table.py:263-274 | once an attribute is missing the whole chain is None |
| DataTableRecords.LookupThroughNull | db/mal2/views/data_table.py:565-585 | a database lookup across a null relation gives null |
| DataTableRecords.ManyTexts | db/mal2/views/data_table.py:421-425 | one text per related object, its value of the last path segment |
| DataTableRecords.GetFieldValue | db/mal2/views/data_table.py:404-431 | the shown value is never a model instance or a manager |
| DataTableRecords.GetFieldValueMissing | db/mal2/views/data_table.py:410-412 | a missing attribute shows as `?` |
| DataTableRecords.GetFieldValueScalar | db/mal2/views/data_table.py:426-431 | a plain attribute shows as stored |
| DataTableRecords.GetFieldValueRef | db/mal2/views/data_table.py:404-431 | a foreign key is followed to the next segment; a path ending on a related object shows None |
| DataTableRecords.GetFieldValueMany | db/mal2/views/data_table.py:414-425 | a many-to-many relation shows its objects' values of the last segment joined with `, ` |
| DataTableSearch.Range | db/mal2/views/data_table.py:630-632 | `range(m, n + 1)`: the integers m..n inclusive, empty when m > n |
| DataTableSearch.QueryColumnFilter | db/mal2/views/data_table.py:565-585 | a regex-enabled column filters by the parsed token; a boolean column filters by `int(search) == 1` and fails with ValueError when the stripped search is not an integer; any other column uses its lookup (`icontains` by default) with the stripped search |
| DataTableSearch.BlankAndPresentComplement | db/mal2/views/data_table.py:590-613 | `!` keeps exactly the values that are null, `""` or whitespace only, and `*` keeps exactly the others |
| DataTableSearch.ParsePresent | db/mal2/views/data_table.py:601 | `*` (after stripping) parses to the present-token |
| DataTableSearch.ParseBracket | db/mal2/views/data_table.py:614-624 | a bracket form is read from its inside, after spaces are removed |
| DataTableSearch.ParseList | db/mal2/views/data_table.py:634-652 | `[a,b,c]` keeps the listed values and `![a,b,c]` excludes them |
| DataTableSearch.BracketRange | db/mal2/views/data_table.py:626-633 | `m-n` with both ends digits means the members m..n, and no filter when the range is empty |
| DataTableSearch.ParseRange | db/mal2/views/data_table.py:626-652 | `[m-n]` keeps m..n inclusive (`![m-n]` excludes them); an empty range applies no filter |
| DataTableSearch.ParseTwoDashes | db/mal2/views/data_table.py:626-628 | a dash form with more than one dash applies no filter |
| DataTableSearch.ParseNonDigitRange | db/mal2/views/data_table.py:626-633 | a dash form whose start is not all digits applies no filter |
| DataTableSearch.ReplaceStars | db/mal2/views/data_table.py:658 | after escaping, replacing `\*` by `.*` turns exactly the pattern's stars into "any sequence" |
| DataTableSearch.ReplaceQuestions | db/mal2/views/data_table.py:658 | replacing `\?` by `.` then turns exactly the pattern's question marks into "one character" |
| DataTableSearch.GlobRegexIsTranslation | db/mal2/views/data_table.py:653-675 | the regex sent to the database is `^` + the glob translation + `$`: anchored, other characters escaped |
| DataTableSearch.GlobLiteral | db/mal2/views/data_table.py:653-675 | a pattern without wildcards matches exactly itself |
| DataTableSearch.GlobStarMatchesAll | db/mal2/views/data_table.py:653-675 | `*` matches every value |
| DataTableSearch.GlobPrefix | db/mal2/views/data_table.py:653-675 | `x*` matches exactly the values that start with x |
| DataTableSearch.ParseNegatedGlob | db/mal2/views/data_table.py:654-664 | a leading `!` makes a negated glob with every `!` removed from the pattern |
| DataTableSearch.ParsePlainGlob | db/mal2/views/data_table.py:665-675 | any other search is a glob of the stripped search |
| DataTableSearch.NegatedGlobComplement | db/mal2/views/data_table.py:654-675 | a negated glob keeps exactly the rows the plain glob drops; an empty member list keeps nothing |
| DataTableSearch.ListNoneIsNotEmpty | db/mal2/views/data_table.py:793-804 | in list mode None reads as `none`: `!` never keeps it, `*` does, and so does the search `No` |
| DataTableSearch.ListRegexAgreesOtherwise | db/mal2/views/data_table.py:793-829 | in list mode a search other than `!` and `*` is the same substring test with or without regex |
| DataTableQuery.KeysDistinct | db/mal2/views/data_table.py:682-698 | the keys `columns[N][data]` and `columns[N][search][value]` name their column uniquely and never coincide |
| DataTableQuery.ColKeysBound | db/mal2/views/data_table.py:685-698 | the scan cannot pass more columns than the request has keys, so it ends |
| DataTableQuery.ScanStep | db/mal2/views/data_table.py:685-698 | one column of the scan: an empty search adds no filter, any other adds its column filter or ends in its error |
| DataTableQuery.NarrowedStep | db/mal2/views/data_table.py:691-696 | narrowing the queryset once more is filtering by one more conjunct |
| DataTableQuery.FilterData | db/mal2/views/data_table.py:679-699 | the `while` loop over `col` narrows the rows to exactly the specified filtered rows |
| DataTableQuery.FilteredRowsConjunctive | db/mal2/views/data_table.py:679-699 | the kept rows are exactly the rows every column filter accepts, in their original order, and never more than the input |
| DataTableQuery.EmptySearchesAddNothing | db/mal2/views/data_table.py:690 | columns whose search is empty or missing add no filter |
| DataTableQuery.ScanStopsAtGap | db/mal2/views/data_table.py:685 | the scan stops at the first missing `columns[N][data]`: columns after the gap are ignored |
| DataTableQuery.IntParam | db/mal2/views/data_table.py:723-726 | `int(data.get(key, default))`: the default when absent, ValueError when the text is not an integer |
| DataTableQuery.OrderPathSelects | db/mal2/views/data_table.py:701-717 | ordering column c ≥ 1 sorts by `field_names[c-1]`; c = 0 selects the last field through negative indexing |
| DataTableQuery.OrderPathDefault | db/mal2/views/data_table.py:704 | without an order parameter the last field is used |
| DataTableQuery.CellLtStrict | db/mal2/views/data_table.py:709-717 | the database order on column values is a strict total order |
| DataTableQuery.OrderLeIsPreorder | db/mal2/views/data_table.py:709-717 | "nulls last, then value, then pk" is a total preorder in both directions |
| DataTableQuery.OrderRowsSorted | db/mal2/views/data_table.py:701-717 | ordering permutes the rows; nulls come last in both directions, equal values are ordered by pk, and other values ascend, or descend when the direction is not `asc` |
| DataTableQuery.PageIsBlock | db/mal2/views/data_table.py:723-726 | a page is the block `rows[start:start+length]`, cut at the end of the rows |
| DataTableQuery.PageAll | db/mal2/views/data_table.py:725 | `length == -1` returns every row |
| DataTableQuery.PageLength | db/mal2/views/data_table.py:723-726 | a page never holds more rows than the input |
| DataTableQuery.FieldCellsContent | db/mal2/views/data_table.py:740-762 | every field name gets its (templated) cell and the other cells are kept |
| DataTableQuery.QueryIdPk | db/mal2/views/data_table.py:222-233 | the default id `pk` links the action to the primary key |
| DataTableQuery.QueryIdThroughRelation | db/mal2/views/data_table.py:226-233 | an id path follows a relation, and after a falsy step it starts again from the row itself |
| DataTableQuery.RowValues | db/mal2/views/data_table.py:730-766 | the values built for one row are the specified row |
| DataTableQuery.FieldValues | db/mal2/views/data_table.py:740-762 | the loop over `field_names` fills exactly the specified field cells |
| DataTableQuery.GetDataTableData | db/mal2/views/data_table.py:719-773 | the envelope built by the loop is the specified envelope |
| DataTableQuery.GetContextData | db/mal2/views/data_table.py:922-933 | filter, then order, then one page of rows in the envelope |
| DataTableQuery.QueryDataCounts | db/mal2/views/data_table.py:719-773 | `recordsTotal == recordsFiltered ==` the row count taken before slicing, `data` holds the page's rows, `draw` is echoed |
| DataTableQuery.QueryResponseCounts | db/mal2/views/data_table.py:922-933 | the counts are the post-filter count, never more than the input, and the page never holds more |
| DataTableQuery.QueryRowShape | db/mal2/views/data_table.py:730-766 | each row has `DT_RowId` `row-<id>` (or the 1-based index), an empty `add` cell, a cell per field and a rendered cell per url item |
| DataTableQuery.PlainCellNeverEmpty | db/mal2/views/data_table.py:756-757 | a cell without template is never None or `""`: those become `-` |
| DataTableOutput.MergeLaws | db/mal2/views/data_table.py:217 | `{**defaults, **item}`: merging with nothing changes nothing, the item wins, and merging is associative |
| DataTableOutput.Dash | db/mal2/views/data_table.py:753-754 | None and `""` are shown as `-`, every other value as itself |
| DataTableOutput.RowIdText | db/mal2/views/data_table.py:733-737 | `DT_RowId` is `row-` followed by the row's id value when it is truthy, else by the 1-based index within the page |
| DataTableOutput.RowIdFallbackDistinct | db/mal2/views/data_table.py:733-737 | rows that fall back to their position get distinct ids |
| DataTableOutput.FieldTemplate | db/mal2/views/data_table.py:188-209 | without a template the value is returned as is; with one the template is rendered with `field_value` and the value of every field name |
| DataTableOutput.AddItemActions | db/mal2/views/data_table.py:211-261 | the loop over the url items writes exactly the specified action cells |
| DataTableOutput.ActionsErrSticks | db/mal2/views/data_table.py:216-259 | an error raised for one url item ends the loop: it is the result whatever follows |
| DataTableOutput.ActionsCoverAllItems | db/mal2/views/data_table.py:216-261 | every url item, permitted or not, gets a rendered cell under its field name, and every other cell is unchanged |
| DataTableOutput.ActionsWithoutHrefs | db/mal2/views/data_table.py:216-261 | url items that all have a template and no href never fail |
| DataTableOutput.RowsOutErr | db/mal2/views/data_table.py:729-768 | the first row that fails decides the result |
| DataTableOutput.RowsOutShape | db/mal2/views/data_table.py:729-768 | one output row per page entry, the k-th built with index k |
| DataTableList.NarrowItems | db/mal2/views/data_table.py:819-831 | the inner loop keeps exactly the items the search keeps, in order; KeyError for an item without the column |
| DataTableList.ListFilterData | db/mal2/views/data_table.py:806-836 | the `while` loop over `col` narrows the items to exactly the specified filtered items |
| DataTableList.ListFilteredConjunctive | db/mal2/views/data_table.py:806-836 | the kept items are exactly the items every column search keeps, in their original order |
| DataTableList.ListFilteredNoKeyError | db/mal2/views/data_table.py:806-836 | when every item has every searched column, filtering raises nothing |
| DataTableList.KeyLtStrictWeak | db/mal2/views/data_table.py:851-854 | Python's `<` on the sort keys is a strict weak order |
| DataTableList.ListLeIsPreorder | db/mal2/views/data_table.py:844-854 | "key not greater", in either direction, is a total preorder |
| DataTableList.ListOrderSorted | db/mal2/views/data_table.py:838-854 | `sorted(items, key=item[field], reverse=dir != "asc")` permutes the items, sorts them by the key ascending or descending, keeps items with equal keys in their original order, and needs every key to be comparable (no None among two or more items) |
| DataTableList.ListOrderLength | db/mal2/views/data_table.py:838-854 | ordering keeps the number of items |
| DataTableList.ListPageAgreesWithQuery | db/mal2/views/data_table.py:859-863 | list-mode paging is query-mode paging, except that Python slicing also accepts negative bounds where the query mode refuses them |
| DataTableList.ListCellsIsFill | db/mal2/views/data_table.py:877-888 | the cells of a row are filled for exactly the item's keys that are field names; KeyError when a template needs a field the item lacks |
| DataTableList.ListFieldValues | db/mal2/views/data_table.py:877-888 | the loop over the item's keys fills exactly the specified cells |
| DataTableList.FillCells | db/mal2/views/data_table.py:877-888 | the same loop, given the template context |
| DataTableList.ListRowValues | db/mal2/views/data_table.py:868-890 | the values built for one item are the specified row |
| DataTableList.ListGetDataTableData | db/mal2/views/data_table.py:856-900 | the envelope built by the loop is the specified envelope |
| DataTableList.ListGetContextData | db/mal2/views/data_table.py:960-968 | filter, then order, then one page of items in the envelope |
| DataTableList.ListDataCounts | db/mal2/views/data_table.py:856-900 | `recordsTotal == recordsFiltered ==` the item count before slicing, `data` never holds more, `draw` is echoed |
| DataTableList.ListResponseCounts | db/mal2/views/data_table.py:960-968 | the counts are the post-filter count, never more than the input, and the page never holds more |
| DataTableList.ListCellsShape | db/mal2/views/data_table.py:877-888 | cells are added exactly for the item's keys that are field names; the other cells are unchanged |
| DataTableList.ListRowFixedCells | db/mal2/views/data_table.py:868-890 | each row has its `DT_RowId`, an empty `add` cell and a rendered cell per url item |
| DataTableList.ListRowFieldCells | db/mal2/views/data_table.py:877-888 | a field without template shows its value with None and `""` as `-`, a templated field is rendered, and a field name missing from the item gets no cell |
| DataTableList.ListRowShape | db/mal2/views/data_table.py:868-890 | the whole row: id, add cell, field cells and action cells |
| DataTableTags.GetItems | db/mal2/templatetags/data_table_tags.py:27-35 | exactly the url items whose permission entry is truthy |
| DataTableTags.GetItemsIsPermitted | db/mal2/templatetags/data_table_tags.py:27-35 | `get_items` picks the same url items as the manifest's action columns |
| DataTableTags.GetItemsOrder | db/mal2/templatetags/data_table_tags.py:31-33 | `get_items` keeps the url items in their original order |
| DataTableTags.GetLabels | db/mal2/templatetags/data_table_tags.py:41-48 | one entry per field name, in order: the configured label, or None where none is set |
| DataTableTags.GetLabel | db/mal2/templatetags/data_table_tags.py:51-53 | the configured label of the field, None when there is none |
| DataTableTags.ColumnsCounter | db/mal2/templatetags/data_table_tags.py:19-24 | the number of field names plus the number of permitted url items plus one |
| DataTableTags.ColumnsCounterMatchesManifest | db/mal2/templatetags/data_table_tags.py:19-24 | the header counter equals the number of columns of the manifest built by `init_data_table_fields` |
| DataTableTags.GetInputType | db/mal2/templatetags/data_table_tags.py:59-67 | the custom filter's input type of the suffix-stripped name, `text` by default |
| DataTableTags.GetSelectOptions | db/mal2/templatetags/data_table_tags.py:81-89 | the custom filter's options, `(("",""),)` by default |
| DataTableTags.GetFieldClass | db/mal2/templatetags/data_table_tags.py:92-103 | custom classes, else `default_classes`, else `col-12 col-md-3` |
| DataTableTags.IsFilterExcluded | db/mal2/templatetags/data_table_tags.py:70-78 | true exactly when the exclude list is present, non-empty and holds the name |
| DataTableTags.HasRegexEnabled | db/mal2/templatetags/data_table_tags.py:109-114 | true exactly when the suffix-stripped name is regex-enabled |
| DataTableTags.StripAppended | db/mal2/templatetags/data_table_tags.py:61-113 | removing the annotation suffix undoes appending it |
| DataTableTags.StripRenamed | db/mal2/templatetags/data_table_tags.py:61-113 | removing the suffix undoes the annotation renaming |
| DataTableTags.InputsFollowRenaming | db/mal2/templatetags/data_table_tags.py:59-114 | after the annotation renaming the filters answer for the renamed field exactly as for the original one |
| WebsiteModels.Select | db/mal2_db/models/base.py:111-178 | each queryset method keeps exactly the websites that satisfy its condition, in table order; `disagreement` also keeps a website whose category and type default are both NULL |
| WebsiteModels.SelectOrder | db/mal2_db/models/base.py:111-178 | filtering keeps the table order: it distributes over any split of the table |
| WebsiteModels.RecordedNeverExcluded | db/mal2_db/models/base.py:112-178 | a website whose url is recorded as fake shop or brand counterfeiter never appears in a view that applies the url exclusion, and every website such a view shows is unrecorded |
| WebsiteModels.TypeViewsDisjoint | db/mal2_db/models/base.py:112-162 | with distinct type ids, `to_check`, `without_verification`, `unsure` and `is_no_fake` never share a website |
| WebsiteModels.FirstOf | db/mal2_db/models/base.py:181-188 | the id of the first record linked to the website, None when none is |
| WebsiteModels.DbId | db/mal2_db/models/base.py:181-188 | `db_id` is the fake-shop record id, else the counterfeiter record id |
| WebsiteModels.DbIdCoalesce | db/mal2_db/models/base.py:181-188 | `db_id` is null exactly when no record of either kind is linked; with a fake-shop record it is a fake-shop record's id |
| WebsiteModels.UrlStr | db/mal2_db/models/base.py:259-260 | a website or record prints as its normalised url; a missing url fails |
| WebsiteModels.UrlStrIgnoresScheme | db/mal2_db/models/base.py:259-260 | a website prints the same, in lower case, whether stored with http or https |
| WebsiteModels.FindByUrl | db/mal2_db/forms/base.py:93-98 | the lookup finds nothing exactly when no stored url matches; otherwise it finds the matching website with the smallest id |
| WebsiteModels.CanonicalStrip | db/mal2/utils/base.py:92-95 | a lower-case host part without trailing slash normalises to itself under either scheme |
| WebsiteModels.LookupsAgreeOnCanonical | db/mal2_db/forms/base.py:93-98 | when every stored url is already canonical, the lookup as written and the normalised lookup find the same website |
| WebsiteModels.NormalisedFindsResubmission | db/mal2_db/forms/base.py:93-98 | the normalised lookup always finds a stored website when its own url is submitted again |
| WebsiteModels.AsWrittenMissesResubmission | db/mal2_db/forms/base.py:93-98 | the lookup as written misses a stored `http://h/` when it is submitted again; the normalised lookup finds it |
| WebsiteForms.WebsiteCleanUrl | db/mal2_db/forms/base.py:90-107 | an accepted url is returned unchanged: the `strip("/")` result is discarded |
| WebsiteForms.WebsiteCleanUrlRejects | db/mal2_db/forms/base.py:90-107 | rejected exactly when the first website stored as `http://n` or `https://n` has an id other than the instance's; a new instance is rejected by any match; a match that is the instance itself passes |
| WebsiteForms.WebsiteSaveCategory | db/mal2_db/forms/base.py:109-121 | a non-admin save takes the type's default category, or UNKNOWN without a type; an admin save keeps the submitted category |
| WebsiteForms.WebsiteFormInitial | db/mal2_db/forms/base.py:77-88 | `assigned_to` starts as the requesting user, the category is readonly unless `admin_edit`, and it starts as UNKNOWN when the instance has none |
| WebsiteForms.RecordCleanUrl | db/mal2_db/forms/base.py:377-404 | an accepted url is returned unchanged |
| WebsiteForms.RecordCleanUrlRejects | db/mal2_db/forms/base.py:377-404 | never rejects when a `website_id` was given; otherwise rejects exactly when a match exists and the instance has no website or the match is another website |
| WebsiteForms.RecordSave | db/mal2_db/forms/base.py:406-430 | a website is created only when neither the form nor the instance has one (with the view's type and that type's default category joined, the user as assignee and category UNKNOWN); the form's website wins over the instance's; afterwards the website's url is the record's url |
| WebsiteForms.FactoriesAgree | db/mal2_db/forms/base.py:146-356 | all seven inline formset factories use `min_num=2`, `extra=0` and `can_delete=True` |
| RestValidators.DuplicateUrlRejects | db/mal2_rest/validators/base.py:9-23 | raises exactly when some website is stored as `http://n` or `https://n`, with n the normalised url: any match, no self-exclusion, the same decision as the website form for a new instance |
| RestValidators.DuplicateUrlAsWrittenAcceptsTwice | db/mal2_rest/validators/base.py:11-17 | a website stored as `http://h/` is accepted again when the same url is submitted; the normalised check rejects it |
| RestValidators.DuplicateUrlNormalisedRejectsResubmission | db/mal2_rest/validators/base.py:11-17 | with stored urls normalised too, resubmitting any stored url is rejected |
| WebsiteViews.ById | db/mal2_db/views/base.py:1038 | the website with the given primary key, None when there is none |
| WebsiteViews.CheckWebsiteRoutes | db/mal2_db/views/base.py:1034-1055 | 404 exactly when the website is missing or has no assignee or no type; fake-shop type redirects to `add_fake_shop` and counterfeiter type to `add_counterfeiter`, both with `website_id`; any other type gives no redirect url |
| WebsiteViews.PdfFieldData | db/mal2_db/views/base.py:68-93 | the loop over plain field names appends exactly the specified entries |
| WebsiteViews.PdfEntriesErrStays | db/mal2_db/views/base.py:86-91 | the first field without a label or a value decides the error |
| WebsiteViews.PdfEntriesShape | db/mal2_db/views/base.py:86-91 | succeeds exactly when every field has a label and a value, and then gives one `{label, id, value}` entry per field, in order |
| WebsiteViews.GetPdfData | db/mal2_db/views/base.py:101-113 | the loop over fieldsets builds exactly the specified PDF data |
| WebsiteViews.PdfDataErrStays | db/mal2_db/views/base.py:105-111 | the first failing fieldset decides the error |
| WebsiteViews.PdfDataShape | db/mal2_db/views/base.py:101-113 | one `{legend, fields}` entry per fieldset, in fieldset order, holding that fieldset's field entries |
| WebsiteViews.TableRowsClassified | db/mal2_db/views/base.py:295-296 | each data view restricts the rows with its classification predicate, and every view except the all-websites one shows only unrecorded websites |
| WebsiteViews.WellFormedMeans | db/mal2_db/views/base.py:119-282 | in a well-formed configuration `field_hidden`, `field_filters.exclude` and `row_id` are field names, and no field or action is named `DT_RowId` or `add` |
| WebsiteViews.TablesWellFormed | db/mal2_db/views/base.py:119-478 | every table configuration of the website views is well-formed |
| WebsiteViews.WebsiteTableWellFormed | db/mal2_db/views/base.py:119-282 | the all-websites and to-check configurations are well-formed |
| WebsiteViews.ShortTableWellFormed | db/mal2_db/views/base.py:498-632 | the without-verification configuration is well-formed |
| WebsiteViews.FakeShopTableWellFormed | db/mal2_db/views/base.py:1061-1277 | the fake-shop configuration is well-formed |
| WebsiteViews.FakeShopActionsFree | db/mal2_db/views/base.py:1061-1277 | no action of the fake-shop table shares a name with a field |
| WebsiteViews.FakeShopColumnsKnown | db/mal2_db/views/base.py:1061-1277 | every name the fake-shop configuration uses is one of its field names |
| WebsiteViews.CounterfeitersTableWellFormed | db/mal2_db/views/base.py:1550-1713 | the counterfeiter configuration is well-formed |
| WebsiteViews.CategoryTableWellFormed | db/mal2_db/views/base.py:1874-1972 | the category-based configurations are well-formed |
| Forms.HideShape | db/mal2/forms/forms.py:82-91 | each declared hidden field gets `data-field-hidden` and a `d-none` class appended; every other field is unchanged |
| Forms.ListItemsAsStr | db/mal2/forms/forms.py:111-124 | list items are compared as strings: a string stays, a model instance becomes its pk as text, anything else has no `pk` (AttributeError) |
| Forms.DecideCases | db/mal2/forms/forms.py:93-148 | a None controlling value clears; a boolean rule applies exactly when `if` is True and the value truthy and otherwise does nothing; a non-boolean rule applies when the comparison holds and clears otherwise; a list value forces `in` over its items as strings; otherwise the declared operator or `==` is used, and an all-digit value compares both sides as numbers, the rule's value read by `float()` as a decimal literal with optional point and exponent |
| Forms.FloatTextInt | db/mal2/forms/forms.py:137 | every text `int()` accepts is read by `float()` as the same number |
| Forms.FloatTextFraction | db/mal2/forms/forms.py:137 | a literal with a point, such as `2.5`, is its digits scaled down by one power of ten per digit after the point; either side of the point may be empty |
| Forms.FloatTextExponent | db/mal2/forms/forms.py:137 | a literal `<digits>e<digits>` is the first number times ten to the second |
| Forms.RemoveFirst | db/mal2/forms/forms.py:157 | `list.remove`: one occurrence of the class goes and nothing else changes |
| Forms.InjectedRequiredErrorKept | db/mal2/forms/forms.py:165-189 | a required error added by a rule has no code, so a later rule that makes the same field optional keeps it and the form stays invalid |
| Forms.ThenErrorsFacts | db/mal2/forms/forms.py:165-189 | during validation a required target with no value and no error gets exactly the field's required message as an error without a code, one that has errors keeps them; a non-required target loses only its errors of code `required`; the target's requirement follows the rule; no other error changes; the only failure is a required, empty, error-free target that is not a field |
| Forms.FireErrStays | db/mal2/forms/forms.py:140-142 | the first failing target ends the rule |
| Forms.FireOneRequirement | db/mal2/forms/forms.py:173-187 | one target during validation sets `requirements[target]` to its `required` flag |
| Forms.FireErrorsFrame | db/mal2/forms/forms.py:165-189 | during validation the rule's targets are the only error entries it adds or changes, and the fields are untouched |
| Forms.FireErrorsRequirementsFrame | db/mal2/forms/forms.py:165-189 | the requirements gain exactly the targets' entries and keep every other entry |
| Forms.LastRequired | db/mal2/forms/forms.py:165-189 | the `required` flag of the last target naming a field, present exactly for target fields |
| Forms.FireErrorsLastWins | db/mal2/forms/forms.py:165-189 | after a rule fires, each target's requirement is that of its last mention |
| Forms.ThenRequiredFrame | db/mal2/forms/forms.py:150-163 | before validation one target changes only its own field's classes and `required` |
| Forms.FireRequiredMode | db/mal2/forms/forms.py:150-163 | before validation a rule changes neither requirements nor errors, only its targets' classes and `required` flags |
| Forms.RequiredModeRefireFails | db/mal2/forms/forms.py:155-157 | firing the same hidden target twice before validation removes `d-none` twice, and the second removal raises ValueError |
| Forms.EmptyThensShape | db/mal2/forms/forms.py:191-203 | every hidden target is set to None in the data and every other entry is kept |
| Forms.EmptyHiddenShape | db/mal2/forms/forms.py:191-203 | the same, and without hidden fields the data is returned unchanged |
| Forms.CheckRulesErrStays | db/mal2/forms/forms.py:93-148 | the first failing rule decides the error |
| Forms.CheckRulesModes | db/mal2/forms/forms.py:93-148 | before validation the rules leave requirements and errors alone; during validation they leave the fields alone; no data key is lost |
| Forms.FieldDependencies.constructor | db/mal2/forms/forms.py:59-72 | the requirements start as each field's own `required` flag, declared hidden fields are hidden, and there are no errors yet |
| Forms.FieldDependencies.StartValidation | db/mal2/forms/forms.py:165-167 | field validation has produced the error dict; nothing else changes |
| Forms.FieldDependencies.RequireOne | db/mal2/forms/forms.py:152-163 | one target of `_update_required_fields` changes the state exactly as specified |
| Forms.FieldDependencies.UpdateRequiredFields | db/mal2/forms/forms.py:150-163 | the loop over targets changes the state exactly as firing the rule specifies, or stops at its error |
| Forms.FieldDependencies.ErrorsOne | db/mal2/forms/forms.py:168-189 | one target of `_update_error_messages` changes the state exactly as specified |
| Forms.FieldDependencies.UpdateErrorMessages | db/mal2/forms/forms.py:165-189 | the loop over targets changes the state exactly as firing the rule specifies, or stops at its error |
| Forms.FieldDependencies.EmptyHiddenFields | db/mal2/forms/forms.py:191-203 | the data with the hidden targets set to None |
| Forms.FieldDependencies.CheckDependencies | db/mal2/forms/forms.py:93-148 | the loop over the rules leaves exactly the specified state and data, or the first error |
| Forms.FieldDependencies.CheckInitial | db/mal2/forms/forms.py:72-80 | the rules run on the initial data at construction, and not at all when there is none |
| Forms.InitGridField | db/mal2/forms/forms.py:34-55 | a field gets its configured grid class, and each sub-widget its configured column or `col` |
| Forms.Steps | db/mal2/forms/forms.py:507-515 | one step per wizard entry, numbered from 1, with its text or None |
| Forms.SubBeforeUpperEmpty | db/mal2/forms/forms.py:227-230 | the prefix pattern replaces an empty match with `""`, so it changes nothing |
| Forms.PrefixFacts | db/mal2/forms/forms.py:226-232 | the default prefix is the lower-cased class name; a given prefix wins; the formset prefix is the lower-cased class name, `-`, then the inline prefix |
| Forms.ErrorFlags | db/mal2/forms/forms.py:568-582 | one error flag per form that is not deleted, in order |
| Forms.LimitErrorMeans | db/mal2/forms/forms.py:585-597 | no limit error exactly when the count is within the validated bounds; `too_many_forms` exactly when max is validated and exceeded; otherwise `too_few_forms` |
| Forms.ErrorFlagsAny | db/mal2/forms/forms.py:604 | some flag is set exactly when some form that takes part has errors |
| Forms.SaveExistingCounted | db/mal2/forms/forms.py:546-557 | an existing row is saved exactly when it would be counted (non-empty and not all None); an empty row is deleted |
| Forms.DeletedNeverCounted | db/mal2/forms/forms.py:572-573 | a form marked for deletion never changes the row count |
| Forms.DuplicateRejected | db/mal2/forms/forms.py:603-623 | two kept forms with the same data, the later not all None, give `duplicate_forms` when no form has errors |
| Forms.InlineFormSet.constructor | db/mal2/forms/forms.py:559-561 | a formset starts with no form errors and no non-form errors |
| Forms.InlineFormSet.Clean | db/mal2/forms/forms.py:603-623 | skipped when any form has errors; otherwise `duplicate_forms` exactly when there is a duplicate |
| Forms.InlineFormSet.CollectForms | db/mal2/forms/forms.py:566-582 | the counter loop collects the specified error flags and counts the filled forms |
| Forms.InlineFormSet.FullClean | db/mal2/forms/forms.py:559-601 | an unbound formset has no errors; a bound one records one error flag per kept form and its non-form errors are the limit error or else the duplicate error |
| Forms.KeptSnoc | db/mal2/forms/forms.py:568-582 | one more form is kept unless it is deleted |
| Forms.CountSnoc | db/mal2/forms/forms.py:575-580 | one more form adds one to the count exactly when it is kept and filled |
| AjaxViews.SubmitFlag | db/mal2/views/edit.py:35-41 | `self.submit` is truthy exactly when the POST `submit` value is present and non-empty, and then it is True |
| AjaxViews.FieldKeyInjective | db/mal2/views/edit.py:58-60 | within one formset and index, the key `<prefix>-<index>-<field>` determines the field |
| AjaxViews.AddFieldErrorsLookup | db/mal2/views/edit.py:56-64 | each field error of form `index` is recorded under `<prefix>-<index>-<field>`, and keys outside that form's prefix are untouched |
| AjaxViews.AddIndexedEmpty | db/mal2/views/edit.py:56-66 | `extra_errors` stays empty exactly when it was empty and no form of the formset has a field error |
| AjaxViews.AddFormsetCases | db/mal2/views/edit.py:53-69 | a valid formset adds nothing; an invalid one adds its field errors, and its non-form errors under its prefix only while `extra_errors` is still empty |
| AjaxViews.ExtraErrorsOfValid | db/mal2/views/edit.py:50-69 | valid formsets leave `extra_errors` empty |
| AjaxViews.ExtraErrorsDistinct | db/mal2/views/edit.py:47-69 | `extra_errors` is a dict: each key at most once |
| AjaxViews.FormatErrorsLookup | db/mal2/views/edit.py:129-135 | a key without `__all__` keeps its rendered errors; every key containing `__all__` collapses to `__all__`, the last one winning |
| AjaxViews.FormatErrorsAll | db/mal2/views/edit.py:132-133 | `__all__` holds the rendered errors of the last key containing it |
| AjaxViews.InvalidOfLookup | db/mal2/views/edit.py:117-143 | the invalid payload has `submit: "error"`, the form's requirements, and per key the extra error if there is one, else the form's |
| AjaxViews.ChangedIndices | db/mal2/views/edit.py:92-96 | exactly the formsets that changed, in order |
| AjaxViews.SuccessContext | db/mal2/views/edit.py:98-113 | `submit: "success"`, the toaster when there is a success message, and `extra_context` merged over both |
| AjaxViews.PostOutcomeMeans | db/mal2/views/edit.py:43-77 | the post saves exactly when submit is set and the form and every formset are valid; a validation-only post never saves and answers the invalid payload |
| AjaxViews.RecordFieldErrors | db/mal2/views/edit.py:57-64 | the loop over one form's errors records exactly the specified keys |
| AjaxViews.RecordFormsetErrors | db/mal2/views/edit.py:53-69 | the loop over one invalid formset records exactly the specified errors |
| AjaxViews.SaveChanged | db/mal2/views/edit.py:92-96 | the loop saves exactly the formsets that changed |
| AjaxViews.FormValid | db/mal2/views/edit.py:79-115 | the success response: the changed formsets saved and the success context |
| AjaxViews.FormInvalid | db/mal2/views/edit.py:117-143 | the invalid response for the form and the extra errors |
| AjaxViews.AjaxFormView.Dispatch | db/mal2/views/edit.py:35-41 | `submit` is set from the POST data |
| AjaxViews.AjaxFormView.Post | db/mal2/views/edit.py:43-77 | the response is the specified outcome for the submit flag set by dispatch |
| AjaxViews.DeletePost | db/mal2/views/edit.py:252-277 | deletes exactly when `submit` is present; then answers the success context, otherwise `{}` |
| Stamps.AuthStamp | db/mal2/models/base.py:43-52 | an authenticated current user becomes `modified_by` on every save and `created_by` on the save that adds the row; without one neither stamp changes |
| Stamps.UpdateModified | db/mal2/models/base.py:72-78 | the popped keyword if given, else the existing attribute, else True |
| Stamps.StampsOverSaves | db/mal2/models/base.py:43-52 | over an adding save and a later save, `created_by` is the first user and `modified_by` the latest authenticated user |
| Stamps.UpdateModifiedSticks | db/mal2/models/base.py:72-78 | a value passed once is kept by later saves that pass none |
| Stamps.AuthTimeStamped.constructor | db/mal2/models/base.py:93-95 | a new row has no stamps and is being added |
| Stamps.AuthTimeStamped.Save | db/mal2/models/base.py:43-78 | the save stamps the row as specified, records `update_modified`, and the row is no longer being added |
| Navbar.NavItem.constructor | db/mal2/templatetags/navbar_tags.py:100-106 | a nav item holds the keys the tag reads: align, permissions, title, href, dropdown items and its own classes list |
| Navbar.LinkOf | db/mal2/templatetags/navbar_tags.py:56-73 | a divider renders as a divider; any other item links to its href (`#` when absent) with its title, active exactly when the href occurs in the request path |
| Navbar.DropdownLinksPermitted | db/mal2/templatetags/navbar_tags.py:48-75 | one link per dropdown item the user has the permissions for, in order |
| Navbar.RenderDropdown | db/mal2/templatetags/navbar_tags.py:52-75 | the loop builds exactly those links |
| Navbar.NavMargin | db/mal2/templatetags/navbar_tags.py:31-46 | `ml-<expand>-1` exactly for a left item or a bar already right; `ml-<expand>-auto` exactly for the first right item; no class for any other align; the bar is right from then on exactly when it was or the item is right |
| Navbar.Ordered | db/mal2/templatetags/navbar_tags.py:95-98 | the ordered items all come from the navbar |
| Navbar.OrderedGroups | db/mal2/templatetags/navbar_tags.py:95-98 | the left group then the right group, each in navbar order; an item is kept exactly when it is left or right; no left item follows a right one |
| Navbar.AsWrittenRejectsMissingAlign | db/mal2/templatetags/navbar_tags.py:95-96 | an item without "align" makes the ordering raise KeyError as written, although the left group accepts it, as the corrected lookup does |
| Navbar.CorrectedAgrees | db/mal2/templatetags/navbar_tags.py:95-96 | when every item has "align", the corrected lookup orders as the source does |
| Navbar.OrderedDistinct | db/mal2/templatetags/navbar_tags.py:95-98 | ordering never repeats an item |
| Navbar.Walked | db/mal2/templatetags/navbar_tags.py:100-132 | a loop that completes has visited every item |
| Navbar.StepFacts | db/mal2/templatetags/navbar_tags.py:100-132 | one loop step: a visited item appends its classes entry; a shown item is rendered with its title's `%USERNAME%` replaced by the user's name and the margin NavMargin gives it; only a shown item can move the bar to the right |
| Navbar.StepTitleWithoutToken | db/mal2/templatetags/navbar_tags.py:108-110 | a shown item whose title has no `%USERNAME%` is rendered with its title unchanged |
| Navbar.WalkedSources | db/mal2/templatetags/navbar_tags.py:100-132 | the rendered items are exactly the permitted ones whose dropdown is empty or shows a link, in order |
| Navbar.WalkedRight | db/mal2/templatetags/navbar_tags.py:39-46 | the bar ends right-aligned exactly when a right item was rendered |
| Navbar.WalkedClasses | db/mal2/templatetags/navbar_tags.py:31-36 | an item's own classes list changes only when the item is rendered and had such a list |
| Navbar.WalkedMargins | db/mal2/templatetags/navbar_tags.py:31-46 | a rendered item gets `-auto` exactly when it is the first rendered right item, and `-1` exactly when it is left-aligned or follows a rendered right item |
| Navbar.WalkedErrStays | db/mal2/templatetags/navbar_tags.py:105-110 | a permitted item without a title ends the loop with an error |
| Navbar.RenderItem | db/mal2/templatetags/navbar_tags.py:100-132 | one loop step on the item, whose classes list is appended to in place |
| Navbar.WalkItems | db/mal2/templatetags/navbar_tags.py:100-132 | the loop over the items gives the specified walk and leaves each item with its specified classes |
| Navbar.RenderNavLinks | db/mal2/templatetags/navbar_tags.py:88-134 | a KeyError when ordering fails, with nothing mutated; otherwise the specified walk's output; items in neither group are never touched |
| BaseTags.UpdateFromDefaults | db/mal2/templatetags/base_tags.py:38-41 | a dict only when both arguments are dicts; each key maps to its options value if present, else its defaults value |
| BaseTags.GetItem | db/mal2/templatetags/base_tags.py:44-49 | a dict gives `get(key)`; a list indexed in range, negatives from the end, gives the element; out of range is IndexError and a string index TypeError; anything else gives None |
| BaseTags.EscapeSafe | db/mal2/templatetags/base_tags.py:71 | escaped text contains none of `<>"'` |
| BaseTags.EscapeAmpersands | db/mal2/templatetags/base_tags.py:71 | every `&` in escaped text begins one of the five entities `&amp;`, `&lt;`, `&gt;`, `&quot;`, `&#39;` |
| BaseTags.UnescapeEscape | db/mal2/templatetags/base_tags.py:71 | escaping loses nothing: unescaping gives the original |
| BaseTags.AttrText | db/mal2/templatetags/base_tags.py:60-72 | False and `class` add nothing; True adds exactly ` name`; any other value adds ` name=` followed by the escaped `str()` of the value between the chosen quotes; such a value with an unknown `quotes` fails because `quote` is unbound |
| BaseTags.AttrsSnoc | db/mal2/templatetags/base_tags.py:59-72 | each entry appends its text, and a failure stops the loop |
| BaseTags.AttrsFails | db/mal2/templatetags/base_tags.py:63-69 | the tag fails exactly when `quotes` is neither single nor double and some shown attribute is not boolean |
| BaseTags.AttrsOmits | db/mal2/templatetags/base_tags.py:60 | hidden entries (False, `class`) do not affect the output |
| BaseTags.AttrsConcat | db/mal2/templatetags/base_tags.py:59-72 | the output of two dicts joined is the two outputs joined |
| BaseTags.AttrsErrStays | db/mal2/templatetags/base_tags.py:59-72 | a failure part way is the tag's failure |
| BaseTags.RenderAttrs | db/mal2/templatetags/base_tags.py:52-74 | the loop builds exactly the specified attribute string |
| BaseTags.StrLeOrder | db/mal2/templatetags/base_tags.py:85 | Python's string order is a total order |
| BaseTags.SortedClasses | db/mal2/templatetags/base_tags.py:77-87 | the classes are sorted and are a permutation of the given ones plus the extras split on spaces |
| BaseTags.ClassesOrderFree | db/mal2/templatetags/base_tags.py:85-87 | the output does not depend on the order the classes came in |
| BaseTags.ClassList.constructor | db/mal2/templatetags/base_tags.py:78 | a classes list holds the given items |
| BaseTags.Classes | db/mal2/templatetags/base_tags.py:77-87 | the caller's non-empty list is extended and sorted in place; an empty one is left alone; the result is the sorted list joined by spaces |
| BaseTags.UnformatPhoneNumber | db/mal2/templatetags/base_tags.py:179-181 | the result has no whitespace and is no longer than the input |
| BaseTags.UnformatIsFilter | db/mal2/templatetags/base_tags.py:179-181 | removing whitespace runs keeps exactly the other characters, in order |
| BaseTags.UnformatKeeps | db/mal2/templatetags/base_tags.py:179-181 | a number without whitespace is unchanged |
| BaseTags.UnformatIdempotent | db/mal2/templatetags/base_tags.py:179-181 | unformatting twice is unformatting once |
| FormTags.TakeColClass | db/mal2/templatetags/form_tags.py:56-61 | the `data-col` value is returned and removed; every other key is kept with its value |
| FormTags.TakeColClassTwice | db/mal2/templatetags/form_tags.py:56-61 | a second call finds no column class and changes nothing |
| FormTags.GetColClass | db/mal2/templatetags/form_tags.py:56-61 | the filter pops `data-col` from the caller's attrs |
| FormTags.FormsetsFor | db/mal2/templatetags/form_tags.py:67-71 | exactly the formsets paired with the field's name |
| FormTags.FormsetsForConcat | db/mal2/templatetags/form_tags.py:67-71 | the generator yields in list order |
| Fields.PutIfSome | db/mal2/forms/fields.py:54-61 | a value that is not None is stored under its key; every other key keeps its value |
| Fields.IntegerWidgetAttrs | db/mal2/forms/fields.py:50-63 | a number or range widget gets `min`, `max` and `step` from the field where they are not None, every other attribute unchanged; any other widget's attributes are untouched |
| Fields.HelpTextOf | db/mal2/forms/fields.py:123-142 | an explicit help text wins; without accepted extensions the help text is kept; one extension gives "The allowed format is <strong>EXT</strong>." |
| Fields.AcceptTextShape | db/mal2/forms/fields.py:130-138 | the extensions text is the first, then ` ,` before each middle one, then ` and ` before the last |
| Fields.HelpTextShape | db/mal2/forms/fields.py:127-140 | two or more extensions give "The allowed formats are …." over that text |
| Fields.JoinAcceptText | db/mal2/forms/fields.py:130-138 | the loop builds exactly the specified extensions text |
| Fields.GetHelpText | db/mal2/forms/fields.py:123-142 | the method gives the specified help text |
| Fields.CheckUpload | db/mal2/forms/fields.py:144-168 | unsupported exactly when a content type is set, the allowed list is non-empty and omits it; too large exactly when otherwise a set size exceeds a set maximum; a size within the maximum never fails |
| Fields.UploadAttrs | db/mal2/forms/fields.py:109-114 | `data-max-size` is always present (None when unset); `accept` is the comma-joined extensions exactly when there are any |
| Fields.JsonEscapePrintable | db/mal2/forms/fields.py:185 | `json.dumps` with `ensure_ascii` writes only printable ASCII characters (0x20 to 0x7E; DEL becomes `\u007f`), whatever the extensions contain |
| Fields.FileTreeInit | db/mal2/forms/fields.py:184-190 | the extensions are a JSON list exactly when given and non-empty; `accept_folder` is 1 when truthy and otherwise 0 |
| Fields.ColorClean | db/mal2/forms/fields.py:201-210 | a clean value is returned unchanged; a failure is the `invalid` error |
| Fields.ColorCleanAccepts | db/mal2/forms/fields.py:204 | without a final newline a value passes exactly when it is `#` and three or six hex digits |
| Fields.ColorCleanRejectsBlank | db/mal2/forms/fields.py:204-208 | the empty value of a blank field is rejected |
| Fields.ColorPatternTrailingNewline | db/mal2/forms/fields.py:204 | `$` also matches before a final newline, so `"#fff\n"` passes |
| Widgets.WidgetAttrs.constructor | db/mal2/forms/widgets.py:203-212 | a widget's attrs hold the given entries |
| Widgets.OptionLabel | db/mal2/forms/widgets.py:72-75 | a plain label is not disabled; a dict label needs both `label` and `disabled` (KeyError otherwise) and gives them |
| Widgets.DataAttrsLookup | db/mal2/forms/widgets.py:84-89 | each data attribute whose values have an entry other than None for the option's value is set to it; other attributes are unchanged |
| Widgets.CreateOptionAttrs | db/mal2/forms/widgets.py:71-91 | the option is marked disabled exactly when the label says so (unless a data attribute named `disabled` overrides it), and carries a data attribute exactly when that attribute has a value other than None for the option |
| Widgets.CreateOption | db/mal2/forms/widgets.py:71-91 | the loop builds exactly the specified option |
| Widgets.Decompress | db/mal2/forms/widgets.py:162-170 | a non-empty string splits on "."; a phone number with both codes gives `+<country>` and the national number; anything else gives `[None, ""]` |
| Widgets.ValueFromDatadict | db/mal2/forms/widgets.py:172-178 | a non-empty result exactly when both parts are present and non-empty |
| Widgets.DecompressValueFromDatadict | db/mal2/forms/widgets.py:162-178 | a prefix and a number without "." come back from the submitted value |
| Widgets.ValueFromDatadictDecompress | db/mal2/forms/widgets.py:162-178 | a stored value of two non-empty pieces is submitted back unchanged |
| Widgets.TinyMceAttrs | db/mal2/forms/widgets.py:184-197 | the given attributes override the defaults `cols`, `rows`, `data-html-textarea`, which are otherwise present |
| Widgets.FileTreeInit | db/mal2/forms/widgets.py:203-212 | the caller's non-empty attrs are updated in place and returned; a missing or empty attrs is replaced by a fresh dict, and an empty caller's dict stays empty; in the dict returned `readonly` is set to "" and no other entry changes |
| ClientScript.EscapeText | db/mal2/static_src/js/base.js:126-136 | the escaped text has no `<` or `>` and is never shorter |
| ClientScript.EscapeTextReadsBack | db/mal2/static_src/js/base.js:126-136 | escaping loses nothing: the text reads back |
| ClientScript.EscapeTextPlain | db/mal2/static_src/js/base.js:126-136 | text without `&`, `<`, `>` is left as it is |
| ClientScript.EscapeTextAgreesWithTemplates | db/mal2/static_src/js/base.js:126-136 | without quotes, the client escapes as the server templates do |
| ClientScript.EscapeTextNotIdempotent | db/mal2/static_src/js/base.js:126-136 | escaping twice double-escapes `&` |
| ClientScript.SendsCsrfToken | db/mal2/static_src/js/base.js:19-31 | the token header is sent exactly for a method other than GET, HEAD, OPTIONS, TRACE on the same domain |
| ClientScript.CsrfCaseSensitive | db/mal2/static_src/js/base.js:19-21 | the safe-method test is case-sensitive: a lower-cased safe method is not safe (jQuery upper-cases the type before the hook runs) |
| ClientScript.WritesSendToken | db/mal2/static_src/js/base.js:19-31 | POST, PUT, PATCH and DELETE carry the token exactly on the same domain |
| ClientScript.SelectionFolder | db/mal2/static_src/js/base.js:1467-1471 | a folder is taken exactly when the picker accepts folders |
| ClientScript.SelectionFile | db/mal2/static_src/js/base.js:1472-1481 | a file is taken whole or not at all, and exactly when it has a dot and its last extension is found in the accepted list |
| ClientScript.NoDotAcceptsNoFile | db/mal2/static_src/js/base.js:1475-1480 | an accepted-extensions text without a dot accepts no file |
| ClientScript.FileTreeInput.constructor | db/mal2/static_src/js/base.js:1460-1465 | a file picker holds its settings, value and invalid mark |
| ClientScript.FileTreeInput.SetInputValue | db/mal2/static_src/js/base.js:1460-1484 | the input is the specified selection and no longer marked invalid |
| ClientScript.ButtonsAt | db/mal2/static_src/js/base.js:1162-1180 | "previous" shows except on the first tab, "submit" exactly on the last, "next" exactly when "submit" does not |
| ClientScript.ButtonsStayInRange | db/mal2/static_src/js/base.js:1162-1180 | a shown "previous" or "next" leads to a tab that exists |
| ClientScript.Wizard.constructor | db/mal2/static_src/js/base.js:1094-1107 | a wizard starts on the first tab, not marked invalid |
| ClientScript.Wizard.SetFormInvalid | db/mal2/static_src/js/base.js:657-661 | the invalid mark is set; tab and buttons are unchanged |
| ClientScript.Wizard.UpdateButtons | db/mal2/static_src/js/base.js:1152-1181 | the buttons follow the current tab when all of them exist; otherwise nothing changes |
| ClientScript.Wizard.ChangeTab | db/mal2/static_src/js/base.js:1130-1143 | ignored while the form is marked invalid; otherwise the tab moves by the direction and the buttons follow |
| ClientScript.Wizard.SelectTab | db/mal2/static_src/js/base.js:1109-1124 | ignored while the form is marked invalid; otherwise the chosen tab becomes current and the buttons follow |
| ClientScript.Wizard.Previous | db/mal2/static_src/js/base.js:1099-1102 | a click on the shown "previous" button moves back one tab, unless marked invalid, and keeps the tab in range |
| ClientScript.Wizard.Next | db/mal2/static_src/js/base.js:1104-1107 | a click on the shown "next" button moves on one tab, unless marked invalid, and keeps the tab in range |
| ClientScript.VisibleCount | db/mal2/static_src/js/base.js:2242 | the visible rows are at most all rows |
| ClientScript.FormSet.constructor | db/mal2/static_src/js/base.js:2239-2244 | a formset holds its rows, limits and button states |
| ClientScript.FormSet.AddFormset | db/mal2/static_src/js/base.js:2239-2267 | one visible row numbered by the row count is appended; total forms is the row count; add is disabled on reaching the maximum; delete is disabled exactly while the visible rows are at most the minimum |
| ClientScript.FormSet.DeleteFormset | db/mal2/static_src/js/base.js:2269-2289 | the row is hidden and its delete box toggled; total forms is unchanged; delete is disabled exactly when one fewer than the visible count is the minimum; add is re-enabled below the maximum |

## Left out

- Database execution: querysets are sequences of records, and `filter`/`exclude`/`order_by` are predicates and a stable sort over them. An `iregex` lookup is modelled by the glob its pattern was built from (`DataTableSearch.GlobMatch`), and the regex string itself is not run. NULL semantics beyond "None is not equal to anything", `distinct` and `select_related` are not modelled. In particular, a fake-shop or counterfeiter record with a NULL url makes SQL's `url NOT IN (…)` unknown for every website with a url, so every queryset that excludes recorded urls would then keep no website with a url; the model ignores NULL record urls and keeps those websites.
- `create_annotations`, `get_annotated_data`, `add_selected_relations`, `update_field_labels`, `get_field_verbose_name`, `is_field_a_string_or_text_field` and `get_field_type` in db/mal2/views/data_table.py: they build `Concat`/`Case` expressions or walk a model's `_meta`. The annotation names they produce are an input to the model.
- `init_data_table_options` (the DataTables.js options dict, `dom` strings and `has_autoreload`): it is configuration for the browser widget and makes no decision.
- `render_to_string` and `reverse`: opaque constructors whose arguments are kept (`DataTableOutput.Out`, `WebsiteViews.Response`). Template output itself is not modelled.
- Screenshots, e-mail, network access, the filesystem, PDF rendering, `get_media_files` and `get_secret_key`: outside the deterministic core.
- The thread-local current user: it is a parameter of `Stamps.AuthTimeStamped.Save` and of the form constructors.
- `format_file_size` and `formatFileSize`: they use floating point.
- The nested-record branch of `_get_pdf_field_data` (db/mal2_db/views/base.py:72-84): it passes the accumulator into the recursive call and then appends that list to itself. `WebsiteViews.PdfFieldData` models the plain-field branch only: a fieldset's fields are plain names, so a nested record cannot be written down.
- The DOM, jQuery, TinyMCE and DataTables.js side of base.js: only the state the modelled handlers read and write is kept (the input value, the current tab, the button flags, the visible rows and the total-forms counter).
- Unicode: `lower()`, `isdigit()` and `upper()` are modelled on ASCII only. `isspace()`, `strip()` and `\s` use Python's whole whitespace set (`Common.IsSpace`).
- `ANNOTATION_FIELD_SUFFIX` and the `DB_*` and `WEBSITE_CATEGORY_*` constants: the constants files are not part of this model. The suffix is a parameter, and the type and category ids are parameters whose only assumed property is that they are distinct.
- Django's negative queryset slicing raises an error, modelled as `Err("NegativeIndexing")`, without its message. In list mode, Python slicing is modelled exactly.
- The trivial `__str__` methods that return `str(field)` of a single field.
- The Python `re` engine: each regex in the core is modelled by the function it computes on these inputs, for example `Forms.SubBeforeUpperEmpty` and `BaseTags.UnformatIsFilter`.
- DataTableConfig.InitAnnotationsRenames: stated for a non-empty suffix only, because with an empty suffix the renamed name is the name itself.
- DataTableTags.StripRenamed: stated only for names in which the suffix occurs at the end and nowhere else (`OnlyAtEnd`), because `replace` strips every occurrence of the suffix.
- Navbar.WalkedClasses: says that an item's own classes list changes only when the item is rendered. The exact appended class is stated by `Navbar.StepFacts` and `Navbar.WalkedMargins`.
- Navbar.Ordered: its own contract states only membership. The order and the groups are stated by `Navbar.OrderedGroups`.
- Forms.DecideCases: `float()` of `inf`, `infinity` and `nan`, of literals with `_` between digits and of non-ASCII digits is a ValueError in the model (`Forms.ToFloat`), and a decimal value is an exact real, not rounded to a binary double.
- DataTableOutput.AddItemActions: the source writes `attrs`, `href` and the field values into the `context` dict of the configuration itself. That dict persists from row to row and is shared by every url item that takes it from the defaults. The model builds a fresh context for each item and row, so a key left behind by an earlier item or row (an `href` seen by a later item without one) is not modelled. The shipped tables give each url item its own context.
- DataTableQuery.OrderPath: an order path that names no model field makes Django raise a FieldError. The model orders such a column as if every value were NULL. That every order path of the shipped table configurations names a model field is assumed, not proved: `WebsiteViews.TablesWellFormed` states only that the hidden and excluded columns and the row id are among the configured field names, and that no action column clashes with a field name.
- WebsiteModels.DbId: the record models hold a plain foreign key to the website, so one website can have several fake-shop or counterfeiter records. The `db_id` annotation joins both reverse relations, so such a website appears in the queryset once per pair of joined records, and fetching it by id then raises MultipleObjectsReturned. The model keeps one row per website and takes the id of its first record of each kind.
- Navbar.RenderNavLinks, Navbar.WalkItems: the bar's items are taken to be distinct objects (`Distinct`), because an item dict listed twice would be changed in place twice and the frame of each step would no longer be one item.

## Findings

| source | as written | input that shows it | evidently intended | confidence | as-written member | corrected member |
|---|---|---|---|---|---|---|
| db/mal2_rest/validators/base.py:11-17 | The candidate url is lowercased and stripped of its scheme and trailing `/`, and is then compared with the stored url as stored. The `url.strip("/")` result is discarded. | A website stored as `http://h/`, where `h` is a lower-case host. Submitting `http://h/` again is accepted, because `http://h` is not the stored url. | A url that is already stored is always found when it is submitted again. | not executed | RestValidators.DuplicateUrlAsWrittenAcceptsTwice | RestValidators.DuplicateUrlNormalisedRejectsResubmission |
| db/mal2_db/forms/base.py:90-107 | The same comparison in the website form's `clean_url` (and in the record form's, lines 377-404). | The same stored `http://h/`: the lookup finds no website. | The lookup finds the stored website. | not executed | WebsiteModels.AsWrittenMissesResubmission | WebsiteModels.NormalisedFindsResubmission |
| db/mal2/templatetags/navbar_tags.py:95-96 | The right-hand group is selected with `item["align"]`, although the left-hand group reads `item.get("align")` and accepts an item without the key. | A navbar with one item that has no "align" key. It is rendered as left-aligned by the left comprehension, but the right comprehension raises KeyError. | An item without "align" is left-aligned and the navbar renders. | not executed | Navbar.AsWrittenRejectsMissingAlign | Navbar.CorrectedAgrees |

/** The website form and the form shared by fake-shop and counterfeiter
    records: the duplicate-url checks of `clean_url`, the category and
    website assignments of `save`, the initial form state, and the
    parameters of the inline formsets. The url lookup is
    WebsiteModels.FindByUrl in the given matching mode. */
module WebsiteForms {
  import opened Common
  import Utils
  import opened WebsiteModels

  // ---------------------------------------------------------------------
  // WebsiteForm

  /** The submitted url must not belong to another website; the url is
      returned unchanged (its `strip("/")` result is dropped). `instanceId`
      is None for a website not saved yet. */
  function WebsiteCleanUrl(ws: seq<Website>, url: string, instanceId: Option<int>, mode: UrlMatch): (r: Result<string>)
    ensures r.Ok? ==> r.value == url
  {
    match FindByUrl(ws, Utils.RemoveUrlProtocol(url), mode)
    case Some(w) => if Some(w.id) != instanceId then Err("invalid") else Ok(url)
    case None => Ok(url)
  }

  predicate IsMatch(ws: seq<Website>, i: int, url: string, mode: UrlMatch)
  {
    0 <= i < |ws| && UrlMatches(mode, ws[i].url, Utils.RemoveUrlProtocol(url))
  }

  /** The form rejects exactly when the matching website with the smallest
      id is not the instance: a new website is rejected by any match, and a
      website is never rejected for matching only itself. */
  lemma WebsiteCleanUrlRejects(ws: seq<Website>, url: string, instanceId: Option<int>, mode: UrlMatch)
    ensures WebsiteCleanUrl(ws, url, instanceId, mode).Err? <==>
      exists i :: IsMatch(ws, i, url, mode) && Some(ws[i].id) != instanceId &&
        forall j :: IsMatch(ws, j, url, mode) ==> ws[i].id <= ws[j].id
    ensures instanceId.None? ==>
      (WebsiteCleanUrl(ws, url, instanceId, mode).Err? <==> exists i :: IsMatch(ws, i, url, mode))
    ensures (forall i :: IsMatch(ws, i, url, mode) ==> Some(ws[i].id) == instanceId) ==>
      WebsiteCleanUrl(ws, url, instanceId, mode) == Ok(url)
  {
    var n := Utils.RemoveUrlProtocol(url);
    var f := FindByUrl(ws, n, mode);
    if f.Some? {
      var k :| 0 <= k < |ws| && ws[k] == f.value;
      assert IsMatch(ws, k, url, mode);
      if WebsiteCleanUrl(ws, url, instanceId, mode).Err? {
        assert forall j :: IsMatch(ws, j, url, mode) ==> ws[k].id <= ws[j].id;
      } else {
        forall i | IsMatch(ws, i, url, mode) && Some(ws[i].id) != instanceId
          ensures exists j :: IsMatch(ws, j, url, mode) && ws[j].id < ws[i].id
        {
          assert ws[k].id <= ws[i].id;
          assert ws[k].id != ws[i].id;
        }
      }
    } else {
      assert forall i :: !IsMatch(ws, i, url, mode);
    }
  }

  /** save: outside the admin edit the category follows the website type —
      its default category with a type, UNKNOWN without one; the admin
      edit keeps the submitted category. `websiteType` carries the chosen
      type's default category. */
  function WebsiteSaveCategory(ids: Ids, adminEdit: bool, websiteType: Option<Option<int>>,
                               submitted: Option<int>): (r: Option<int>)
    ensures adminEdit ==> r == submitted
    ensures !adminEdit && websiteType.Some? ==> r == websiteType.value
    ensures !adminEdit && websiteType.None? ==> r == Some(ids.categoryUnknown)
  {
    if adminEdit then submitted
    else match websiteType
      case Some(d) => d
      case None => Some(ids.categoryUnknown)
  }

  /** The initial state of a website form. */
  datatype WebsiteFormInit = WebsiteFormInit(
    assignedTo: int,
    categoryReadonly: bool,
    initialCategory: Option<int>)

  /** __init__: assigned_to starts as the requesting user, the category is
      read-only unless this is the admin edit, and an instance without a
      category starts at UNKNOWN. */
  function WebsiteFormInitial(ids: Ids, user: int, adminEdit: bool, instanceCategory: Option<int>,
                              initialCategory: Option<int>): (r: WebsiteFormInit)
    ensures r.assignedTo == user
    ensures r.categoryReadonly <==> !adminEdit
    ensures instanceCategory.None? ==> r.initialCategory == Some(ids.categoryUnknown)
    ensures instanceCategory.Some? ==> r.initialCategory == initialCategory
  {
    WebsiteFormInit(user, !adminEdit,
      if instanceCategory.None? then Some(ids.categoryUnknown) else initialCategory)
  }

  // ---------------------------------------------------------------------
  // DBFormMixin (fake-shop and counterfeiter forms)

  /** clean_url of a record form. `websiteId` is the website the form was
      opened for; `instanceWebsite` the website the record already
      belongs to. */
  function RecordCleanUrl(ws: seq<Website>, url: string, websiteId: Option<int>,
                          instanceWebsite: Option<int>, mode: UrlMatch): (r: Result<string>)
    ensures r.Ok? ==> r.value == url
  {
    var found := FindByUrl(ws, Utils.RemoveUrlProtocol(url), mode);
    if websiteId.Some? && websiteId.value != 0 then Ok(url)
    else if found.Some? && instanceWebsite.None? then Err("invalid")
    else if found.Some? && Some(found.value.id) != instanceWebsite then Err("invalid")
    else Ok(url)
  }

  /** A record form opened for a website never rejects its url; otherwise
      it rejects exactly when the matching website with the smallest id is
      not the record's own website. */
  lemma RecordCleanUrlRejects(ws: seq<Website>, url: string, websiteId: Option<int>,
                              instanceWebsite: Option<int>, mode: UrlMatch)
    ensures websiteId.Some? && websiteId.value != 0 ==> RecordCleanUrl(ws, url, websiteId, instanceWebsite, mode) == Ok(url)
    ensures !(websiteId.Some? && websiteId.value != 0) ==>
      (RecordCleanUrl(ws, url, websiteId, instanceWebsite, mode).Err? <==>
       WebsiteCleanUrl(ws, url, instanceWebsite, mode).Err?)
  {
  }

  /** The website a record form links: the form's website wins, then the
      record's own; a new one is created only when both are missing, with
      the form's type (whose own default category the row then joins), the
      requesting user and the default category. The
      linked website then takes the record's url, which also replaces the
      url the new website was created with. */
  datatype Linked = Linked(created: bool, website: Website)

  function RecordSave(ids: Ids, formWebsite: Option<Website>, instanceWebsite: Option<Website>,
                      instanceUrl: Option<string>, typeId: int, typeDefault: Option<int>, user: int, freshId: int): (r: Linked)
    ensures r.created <==> formWebsite.None? && instanceWebsite.None?
    ensures formWebsite.Some? ==> r.website == formWebsite.value.(url := instanceUrl)
    ensures formWebsite.None? && instanceWebsite.Some? ==> r.website == instanceWebsite.value.(url := instanceUrl)
    ensures r.created ==>
      r.website.id == freshId && r.website.websiteType == Some(typeId) &&
      r.website.assignedTo == Some(user) && r.website.category == Some(ids.categoryUnknown) &&
      r.website.defaultCategory == typeDefault
    ensures r.website.url == instanceUrl
  {
    var own :=
      if formWebsite.Some? then formWebsite.value
      else if instanceWebsite.Some? then instanceWebsite.value
      else Website(freshId, instanceUrl, Some(typeId), Some(ids.categoryUnknown), typeDefault, Some(user));
    Linked(formWebsite.None? && instanceWebsite.None?, own.(url := instanceUrl))
  }

  // ---------------------------------------------------------------------
  // Inline formsets

  /** The parameters of an inline formset factory. */
  datatype Factory = Factory(parent: string, child: string, minNum: nat, extra: nat, canDelete: bool)

  const Factories: seq<Factory> := [
    Factory("mal2FakeShopDB", "SearchResult", 2, 0, true),
    Factory("mal2FakeShopDB", "CompanyName", 2, 0, true),
    Factory("mal2FakeShopDB", "WebsiteImage", 2, 0, true),
    Factory("mal2FakeShopDB", "WebsiteText", 2, 0, true),
    Factory("mal2FakeShopDB", "LanguageExample", 2, 0, true),
    Factory("mal2CounterfeitersDB", "ProductExample", 2, 0, true),
    Factory("mal2CounterfeitersDB", "LanguageUrl", 2, 0, true)
  ]

  /** Every inline formset asks for at least two rows, adds no empty
      extras and lets rows be deleted. */
  lemma FactoriesAgree()
    ensures |Factories| == 7
    ensures forall f :: f in Factories ==> f.minNum == 2 && f.extra == 0 && f.canDelete
  {
  }
}

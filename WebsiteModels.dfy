/** The website records and the classification predicates of their query
    set: which websites still wait for a check, which were judged and how.
    Query sets are sequences of records; a `filter`/`exclude` chain is a
    Filter with the conjunction of its conditions. */
module WebsiteModels {
  import opened Common
  import Utils

  /** The ids of the website types and categories the predicates name;
      their values are set in the database constants, only their
      distinctness matters here. */
  datatype Ids = Ids(
    fakeShop: int,
    counterfeite: int,
    noVerificationNecessary: int,
    unsure: int,
    noFake: int,
    categoryOther: int,
    categoryOnlineShop: int,
    categoryUnknown: int)

  predicate TypesDistinct(ids: Ids)
  {
    var t := [ids.fakeShop, ids.counterfeite, ids.noVerificationNecessary, ids.unsure, ids.noFake];
    forall i, j :: 0 <= i < j < |t| ==> t[i] != t[j]
  }

  /** A website row; `defaultCategory` is the joined
      website_type__default_category, None without a type. */
  datatype Website = Website(
    id: int,
    url: Option<string>,
    websiteType: Option<int>,
    category: Option<int>,
    defaultCategory: Option<int>,
    assignedTo: Option<int>)

  /** A fake-shop or counterfeiter record: its url and the website it
      belongs to. */
  datatype Record = Record(id: int, website: Option<int>, url: Option<string>)

  datatype Db = Db(websites: seq<Website>, fakeShops: seq<Record>, counterfeiters: seq<Record>)

  /** values_list("url") of a record table (NULL urls match nothing). */
  function Urls(rs: seq<Record>): set<string>
  {
    set i | 0 <= i < |rs| && rs[i].url.Some? :: rs[i].url.value
  }

  /** The common exclusion: the url is recorded as fake shop or as
      counterfeiter. */
  predicate Recorded(db: Db, w: Website)
  {
    w.url.Some? && (w.url.value in Urls(db.fakeShops) || w.url.value in Urls(db.counterfeiters))
  }

  predicate TypeIs(w: Website, t: int)
  {
    w.websiteType == Some(t)
  }

  predicate CategoryIs(w: Website, c: int)
  {
    w.category == Some(c)
  }

  // ---------------------------------------------------------------------
  // The conditions of each query-set method

  predicate ToCheckCond(db: Db, ids: Ids, w: Website)
  {
    !Recorded(db, w) && (w.websiteType.None? || TypeIs(w, ids.fakeShop) || TypeIs(w, ids.counterfeite))
  }

  predicate WithoutVerificationCond(db: Db, ids: Ids, w: Website)
  {
    !Recorded(db, w) && TypeIs(w, ids.noVerificationNecessary)
  }

  predicate UnsureCond(db: Db, ids: Ids, w: Website)
  {
    !Recorded(db, w) && TypeIs(w, ids.unsure)
  }

  /** The negated `website_category = website_type__default_category`
      holds unless both sides are non-NULL and equal: two NULLs do not
      compare equal in SQL. */
  predicate DisagreementCond(db: Db, w: Website)
  {
    !Recorded(db, w) && !(w.category.Some? && w.category == w.defaultCategory)
  }

  predicate IsFakeShopCond(db: Db, w: Website)
  {
    w.url.Some? && w.url.value in Urls(db.fakeShops)
  }

  predicate IsBrandCounterfeiterCond(db: Db, w: Website)
  {
    w.url.Some? && w.url.value in Urls(db.counterfeiters)
  }

  predicate IsNoFakeCond(db: Db, ids: Ids, w: Website)
  {
    !Recorded(db, w) && TypeIs(w, ids.noFake)
  }

  predicate IsOtherSitesCond(db: Db, ids: Ids, w: Website)
  {
    !Recorded(db, w) && CategoryIs(w, ids.categoryOther)
  }

  predicate IsOnlineShopCond(db: Db, ids: Ids, w: Website)
  {
    !Recorded(db, w) && CategoryIs(w, ids.categoryOnlineShop)
  }

  /** The query-set methods. */
  datatype View =
    | All | ToCheck | WithoutVerification | Unsure | Disagreement
    | IsFakeShop | IsBrandCounterfeiter | IsNoFake | IsOtherSites | IsOnlineShop

  predicate Keeps(db: Db, ids: Ids, v: View, w: Website)
  {
    match v
    case All => true
    case ToCheck => ToCheckCond(db, ids, w)
    case WithoutVerification => WithoutVerificationCond(db, ids, w)
    case Unsure => UnsureCond(db, ids, w)
    case Disagreement => DisagreementCond(db, w)
    case IsFakeShop => IsFakeShopCond(db, w)
    case IsBrandCounterfeiter => IsBrandCounterfeiterCond(db, w)
    case IsNoFake => IsNoFakeCond(db, ids, w)
    case IsOtherSites => IsOtherSitesCond(db, ids, w)
    case IsOnlineShop => IsOnlineShopCond(db, ids, w)
  }

  function KeepsFn(db: Db, ids: Ids, v: View): Website -> bool
  {
    w => Keeps(db, ids, v, w)
  }

  /** Website.objects.<view>(): the rows in table order. */
  function Select(db: Db, ids: Ids, v: View): (r: seq<Website>)
    ensures forall w :: w in r <==> w in db.websites && Keeps(db, ids, v, w)
    ensures |r| <= |db.websites|
  {
    Filter(db.websites, KeepsFn(db, ids, v))
  }

  /** A selection keeps the table order: selecting from a concatenation
      selects from each part. */
  lemma SelectOrder(db: Db, ids: Ids, v: View, a: seq<Website>, b: seq<Website>)
    requires db.websites == a + b
    ensures Select(db, ids, v) == Filter(a, KeepsFn(db, ids, v)) + Filter(b, KeepsFn(db, ids, v))
  {
    FilterConcat(a, b, KeepsFn(db, ids, v));
  }

  /** The views that exclude recorded urls. */
  predicate Excluding(v: View)
  {
    v.ToCheck? || v.WithoutVerification? || v.Unsure? || v.Disagreement? ||
    v.IsNoFake? || v.IsOtherSites? || v.IsOnlineShop?
  }

  /** A website whose url is recorded as fake shop or counterfeiter never
      appears in a view that excludes recorded urls, and every website of
      such a view is in neither record list. */
  lemma RecordedNeverExcluded(db: Db, ids: Ids, v: View, w: Website)
    requires Excluding(v)
    ensures (IsFakeShopCond(db, w) || IsBrandCounterfeiterCond(db, w)) ==> w !in Select(db, ids, v)
    ensures w in Select(db, ids, v) ==> !IsFakeShopCond(db, w) && !IsBrandCounterfeiterCond(db, w)
  {
  }

  /** The type-based views do not overlap when the type ids are distinct. */
  lemma TypeViewsDisjoint(db: Db, ids: Ids, w: Website)
    requires TypesDistinct(ids)
    ensures !(ToCheckCond(db, ids, w) && WithoutVerificationCond(db, ids, w))
    ensures !(ToCheckCond(db, ids, w) && UnsureCond(db, ids, w))
    ensures !(ToCheckCond(db, ids, w) && IsNoFakeCond(db, ids, w))
    ensures !(WithoutVerificationCond(db, ids, w) && UnsureCond(db, ids, w))
    ensures !(WithoutVerificationCond(db, ids, w) && IsNoFakeCond(db, ids, w))
    ensures !(UnsureCond(db, ids, w) && IsNoFakeCond(db, ids, w))
  {
    var t := [ids.fakeShop, ids.counterfeite, ids.noVerificationNecessary, ids.unsure, ids.noFake];
    assert t[0] != t[2] && t[0] != t[3] && t[0] != t[4] && t[1] != t[2] && t[1] != t[3] && t[1] != t[4];
    assert t[2] != t[3] && t[2] != t[4] && t[3] != t[4];
  }

  // ---------------------------------------------------------------------
  // db_id

  /** The first record that belongs to website `id`. */
  function FirstOf(rs: seq<Record>, id: int): (r: Option<int>)
    ensures r.None? <==> forall i :: 0 <= i < |rs| ==> rs[i].website != Some(id)
    ensures r.Some? ==> exists i :: 0 <= i < |rs| && rs[i].website == Some(id) && rs[i].id == r.value
    decreases |rs|
  {
    if rs == [] then None
    else if rs[0].website == Some(id) then Some(rs[0].id)
    else
      var r := FirstOf(rs[1..], id);
      assert forall i :: 1 <= i < |rs| ==> rs[i] == rs[1..][i - 1];
      r
  }

  /** The db_id annotation: Coalesce(fake-shop record id, counterfeiter
      record id). */
  function DbId(db: Db, w: Website): (r: Option<int>)
    ensures FirstOf(db.fakeShops, w.id).Some? ==> r == FirstOf(db.fakeShops, w.id)
    ensures FirstOf(db.fakeShops, w.id).None? ==> r == FirstOf(db.counterfeiters, w.id)
  {
    match FirstOf(db.fakeShops, w.id)
    case Some(i) => Some(i)
    case None => FirstOf(db.counterfeiters, w.id)
  }

  /** db_id is null exactly when no record of either kind belongs to the
      website, and otherwise is the id of such a record, a fake-shop
      record when there is one. */
  lemma DbIdCoalesce(db: Db, w: Website)
    ensures DbId(db, w).None? <==>
      (forall i :: 0 <= i < |db.fakeShops| ==> db.fakeShops[i].website != Some(w.id)) &&
      (forall i :: 0 <= i < |db.counterfeiters| ==> db.counterfeiters[i].website != Some(w.id))
    ensures (exists i :: 0 <= i < |db.fakeShops| && db.fakeShops[i].website == Some(w.id)) ==>
      exists i :: 0 <= i < |db.fakeShops| && db.fakeShops[i].website == Some(w.id) &&
        DbId(db, w) == Some(db.fakeShops[i].id)
  {
    if exists i :: 0 <= i < |db.fakeShops| && db.fakeShops[i].website == Some(w.id) {
      assert FirstOf(db.fakeShops, w.id).Some?;
    }
  }

  // ---------------------------------------------------------------------
  // __str__

  /** Website, fake-shop and counterfeiter records print as their url
      without scheme; a NULL url makes remove_url_protocol fail. */
  function UrlStr(url: Option<string>): (r: Result<string>)
    ensures url.None? <==> r.Err?
    ensures url.Some? ==> r == Ok(Utils.RemoveUrlProtocol(url.value))
  {
    match url
    case Some(u) => Ok(Utils.RemoveUrlProtocol(u))
    case None => Err("AttributeError")
  }

  /** A website prints the same whether it was stored with http or https. */
  lemma UrlStrIgnoresScheme(u: string)
    requires Utils.SingleLine(u)
    ensures UrlStr(Some("http://" + u)) == UrlStr(Some("https://" + u))
    ensures UrlStr(Some("http://" + u)).Ok? && IsLowerCase(UrlStr(Some("http://" + u)).value)
  {
    Utils.SchemesAgree(u);
    Utils.RemoveUrlProtocolIsLowerCase("http://" + u);
  }

  // ---------------------------------------------------------------------
  // Looking a url up

  /** How a stored url is compared with the normalised candidate `n`:
      AsWritten is the code's filter(url="http://n" | url="https://n");
      Normalised compares remove_url_protocol of the stored url, which is
      what the duplicate checks evidently want. */
  datatype UrlMatch = AsWritten | Normalised

  predicate UrlMatches(mode: UrlMatch, stored: Option<string>, n: string)
  {
    match mode
    case AsWritten => stored == Some("http://" + n) || stored == Some("https://" + n)
    case Normalised => stored.Some? && Utils.RemoveUrlProtocol(stored.value) == n
  }

  /** The matching website with the smallest primary key, as `.first()`
      on an unordered query set picks it. */
  function FindByUrl(ws: seq<Website>, n: string, mode: UrlMatch): (r: Option<Website>)
    ensures r.None? <==> forall i :: 0 <= i < |ws| ==> !UrlMatches(mode, ws[i].url, n)
    ensures r.Some? ==>
      r.value in ws && UrlMatches(mode, r.value.url, n) &&
      forall i :: 0 <= i < |ws| && UrlMatches(mode, ws[i].url, n) ==> r.value.id <= ws[i].id
    decreases |ws|
  {
    if ws == [] then None
    else
      var rest := FindByUrl(ws[1..], n, mode);
      assert forall i :: 1 <= i < |ws| ==> ws[i] == ws[1..][i - 1];
      if !UrlMatches(mode, ws[0].url, n) then rest
      else if rest.Some? && rest.value.id < ws[0].id then rest
      else Some(ws[0])
  }

  /** A url is canonical when it is http or https followed by a lower-case,
      single-line host part without a trailing slash. */
  predicate Canonical(u: string)
  {
    (StartsWith(u, "http://") && CanonicalHost(u[7..])) ||
    (StartsWith(u, "https://") && CanonicalHost(u[8..]))
  }

  predicate CanonicalHost(h: string)
  {
    IsLowerCase(h) && '\n' !in h && !EndsWith(h, "/")
  }

  lemma CanonicalStrip(h: string)
    requires CanonicalHost(h)
    ensures Utils.RemoveUrlProtocol("http://" + h) == h
    ensures Utils.RemoveUrlProtocol("https://" + h) == h
  {
    Utils.RemoveUrlProtocolOfHttps(h);
    assert Utils.SingleLine(h);
    Utils.SchemesAgree(h);
    assert !EndsWith(h, "/\n") by {
      if |h| >= 2 {
        assert h[|h| - 1] in h;
      }
    }
  }

  /** A canonical http url matches as written exactly when its host part
      is the candidate, as it does normalised. */
  lemma HttpMatchesAgree(h: string, n: string)
    requires CanonicalHost(h)
    ensures UrlMatches(AsWritten, Some("http://" + h), n) == UrlMatches(Normalised, Some("http://" + h), n)
  {
    var u := "http://" + h;
    CanonicalStrip(h);
    assert u[7..] == h;
    assert ("http://" + n)[7..] == n;
    if h != n {
      assert u != "https://" + n by {
        assert u[4] == ':';
        assert ("https://" + n)[4] == 's';
      }
    }
  }

  lemma HttpsMatchesAgree(h: string, n: string)
    requires CanonicalHost(h)
    ensures UrlMatches(AsWritten, Some("https://" + h), n) == UrlMatches(Normalised, Some("https://" + h), n)
  {
    var u := "https://" + h;
    CanonicalStrip(h);
    assert u[8..] == h;
    assert ("https://" + n)[8..] == n;
    if h != n {
      assert u != "http://" + n by {
        assert u[4] == 's';
        assert ("http://" + n)[4] == ':';
      }
    }
  }

  /** Where every stored url is canonical and the candidate is a host part,
      the lookup as written finds what the normalised lookup finds. */
  lemma LookupsAgreeOnCanonical(ws: seq<Website>, n: string)
    requires forall i :: 0 <= i < |ws| && ws[i].url.Some? ==> Canonical(ws[i].url.value)
    ensures FindByUrl(ws, n, AsWritten) == FindByUrl(ws, n, Normalised)
  {
    forall i | 0 <= i < |ws|
      ensures UrlMatches(AsWritten, ws[i].url, n) == UrlMatches(Normalised, ws[i].url, n)
    {
      if ws[i].url.Some? {
        var u := ws[i].url.value;
        if StartsWith(u, "http://") {
          assert u[..7] == "http://";
          assert u[4] == ':';
          assert !StartsWith(u, "https://");
          assert u == "http://" + u[7..];
          HttpMatchesAgree(u[7..], n);
        } else {
          assert u == "https://" + u[8..];
          HttpsMatchesAgree(u[8..], n);
        }
      }
    }
    FindByUrlExt(ws, n);
  }

  lemma {:induction false} FindByUrlExt(ws: seq<Website>, n: string)
    requires forall i :: 0 <= i < |ws| ==>
      UrlMatches(AsWritten, ws[i].url, n) == UrlMatches(Normalised, ws[i].url, n)
    ensures FindByUrl(ws, n, AsWritten) == FindByUrl(ws, n, Normalised)
    decreases |ws|
  {
    if ws != [] {
      assert forall i :: 1 <= i < |ws| ==> ws[i] == ws[1..][i - 1];
      FindByUrlExt(ws[1..], n);
    }
  }

  /** The normalised lookup finds every stored url that is submitted
      again, whatever its case and trailing slash. */
  lemma NormalisedFindsResubmission(ws: seq<Website>, k: nat)
    requires k < |ws| && ws[k].url.Some?
    ensures FindByUrl(ws, Utils.RemoveUrlProtocol(ws[k].url.value), Normalised).Some?
  {
  }

  /** A canonical host part with one slash added normalises to itself. */
  lemma SlashedNormalises(h: string)
    requires CanonicalHost(h)
    ensures Utils.RemoveUrlProtocol("http://" + h + "/") == h
  {
    var hs := h + "/";
    assert "http://" + h + "/" == "http://" + hs;
    assert IsLowerCase(hs) && '\n' !in hs by {
      forall i | 0 <= i < |hs|
        ensures !IsUpper(hs[i]) && hs[i] != '\n'
      {
        if i < |h| {
          assert hs[i] == h[i] && h[i] in h;
        }
      }
    }
    Utils.RemoveUrlProtocolOfHttps(hs);
    assert Utils.SingleLine(hs);
    Utils.SchemesAgree(hs);
    assert hs[..|hs| - 1] == h;
  }

  /** As written, a url stored with a trailing slash is not found when the
      very same url is submitted again; the normalised lookup finds it. */
  lemma AsWrittenMissesResubmission(h: string)
    requires CanonicalHost(h)
    ensures var u := "http://" + h + "/";
      var w := Website(1, Some(u), None, None, None, None);
      Utils.RemoveUrlProtocol(u) == h &&
      FindByUrl([w], h, AsWritten).None? && FindByUrl([w], h, Normalised).Some?
  {
    var u := "http://" + h + "/";
    var w := Website(1, Some(u), None, None, None, None);
    SlashedNormalises(h);
    assert FindByUrl([w], h, AsWritten).None? by {
      assert u != "https://" + h by {
        assert u[4] == ':';
        assert ("https://" + h)[4] == 's';
      }
      assert |u| != |"http://" + h|;
      assert !UrlMatches(AsWritten, w.url, h);
    }
    assert FindByUrl([w], h, Normalised).Some? by {
      assert UrlMatches(Normalised, w.url, h);
    }
  }
}

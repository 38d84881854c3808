/** The duplicate-url validator of the REST interface. */
module RestValidators {
  import opened Common
  import Utils
  import opened WebsiteModels
  import WebsiteForms

  /** DuplicateURLValidator: an error as soon as any website matches the
      normalised url, whichever record is being written. */
  function DuplicateUrl(ws: seq<Website>, url: string, mode: UrlMatch): (r: Result<()>)
  {
    if FindByUrl(ws, Utils.RemoveUrlProtocol(url), mode).Some? then Err("invalid") else Ok(())
  }

  /** The validator rejects exactly when some stored website matches, and
      unlike the form check it makes no exception for the record itself:
      it rejects whenever the website form would reject a new website. */
  lemma DuplicateUrlRejects(ws: seq<Website>, url: string, mode: UrlMatch)
    ensures DuplicateUrl(ws, url, mode).Err? <==>
      exists i :: 0 <= i < |ws| && UrlMatches(mode, ws[i].url, Utils.RemoveUrlProtocol(url))
    ensures DuplicateUrl(ws, url, mode).Err? <==> WebsiteForms.WebsiteCleanUrl(ws, url, None, mode).Err?
  {
    var n := Utils.RemoveUrlProtocol(url);
    if DuplicateUrl(ws, url, mode).Err? {
      var w := FindByUrl(ws, n, mode).value;
      var k :| 0 <= k < |ws| && ws[k] == w;
      assert UrlMatches(mode, ws[k].url, n);
    }
  }

  /** As written, the candidates are lower-case and slash-trimmed while the
      stored urls are compared as stored: a url stored with a trailing
      slash, "http://shop.at/" say, is accepted again. The normalised
      comparison rejects the second submission of every stored url. */
  lemma DuplicateUrlAsWrittenAcceptsTwice(h: string)
    requires WebsiteModels.CanonicalHost(h)
    ensures var u := "http://" + h + "/";
      var w := Website(1, Some(u), None, None, None, None);
      DuplicateUrl([w], u, AsWritten).Ok? &&
      DuplicateUrl([w], u, Normalised).Err?
  {
    AsWrittenMissesResubmission(h);
  }

  lemma DuplicateUrlNormalisedRejectsResubmission(ws: seq<Website>, k: nat)
    requires k < |ws| && ws[k].url.Some?
    ensures DuplicateUrl(ws, ws[k].url.value, Normalised).Err?
  {
    NormalisedFindsResubmission(ws, k);
  }
}

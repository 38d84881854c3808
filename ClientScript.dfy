/** The decision logic of the browser script: the text escaping used when
    messages are shown, which requests carry the CSRF token, which tree
    entry the file-tree picker writes into its input, the wizard's buttons
    and the formset's add and delete counters. The DOM is reduced to the
    state these rules read and write. */
module ClientScript {
  import opened Common
  import BaseTags

  // ---------------------------------------------------------------------
  // escapeText

  /** The replacement table of `escapeText`. */
  function EscapeTextChar(c: char): string
  {
    if c == '&' then "&amp;"
    else if c == '<' then "&lt;"
    else if c == '>' then "&gt;"
    else [c]
  }

  /** `text.replace(/[&<>]/g, …)`: every match replaced, left to right. */
  function EscapeText(text: string): (r: string)
    ensures forall i :: 0 <= i < |r| ==> r[i] != '<' && r[i] != '>'
    ensures |r| >= |text|
    decreases |text|
  {
    if text == [] then []
    else
      var h, t := EscapeTextChar(text[0]), EscapeText(text[1..]);
      assert forall i :: |h| <= i < |h + t| ==> (h + t)[i] == t[i - |h|];
      h + t
  }

  /** One escaped character reads back, whatever follows it. */
  lemma EscapeTextCharReadsBack(c: char, t: string)
    ensures BaseTags.Unescape(EscapeTextChar(c) + t) == [c] + BaseTags.Unescape(t)
  {
    if c == '"' || c == '\'' {
      var e := [c] + t;
      assert e[0] == c && e[1..] == t;
      assert !StartsWith(e, "&amp;") && !StartsWith(e, "&lt;") && !StartsWith(e, "&gt;");
      assert !StartsWith(e, "&quot;") && !StartsWith(e, "&#39;");
    } else {
      assert EscapeTextChar(c) == BaseTags.EscapeChar(c);
      BaseTags.UnescapeChar(c, t);
    }
  }

  /** The escaped text reads back through the entity decoder of the
      templates, so nothing but the three characters is changed. */
  lemma {:induction false} EscapeTextReadsBack(text: string)
    ensures BaseTags.Unescape(EscapeText(text)) == text
    decreases |text|
  {
    if text != [] {
      EscapeTextReadsBack(text[1..]);
      EscapeTextCharReadsBack(text[0], EscapeText(text[1..]));
      assert [text[0]] + text[1..] == text;
    }
  }

  /** Text with no `&`, `<` or `>` is left as it is. */
  lemma {:induction false} EscapeTextPlain(text: string)
    requires forall i :: 0 <= i < |text| ==> text[i] != '&' && text[i] != '<' && text[i] != '>'
    ensures EscapeText(text) == text
    decreases |text|
  {
    if text != [] {
      EscapeTextPlain(text[1..]);
      assert [text[0]] + text[1..] == text;
    }
  }

  /** On text without quotes the script escapes as the server's templates
      do; the server additionally escapes both quote characters. */
  lemma {:induction false} EscapeTextAgreesWithTemplates(text: string)
    requires forall i :: 0 <= i < |text| ==> text[i] != '"' && text[i] != '\''
    ensures EscapeText(text) == BaseTags.Escape(text)
    decreases |text|
  {
    if text != [] {
      EscapeTextAgreesWithTemplates(text[1..]);
    }
  }

  /** Escaping twice is not escaping once: an ampersand becomes
      `&amp;amp;`. */
  lemma EscapeTextNotIdempotent()
    ensures EscapeText("&") == "&amp;"
    ensures EscapeText(EscapeText("&")) == "&amp;amp;"
    ensures EscapeText(EscapeText("&")) != EscapeText("&")
  {
    assert EscapeText("&") == "&amp;" + EscapeText("");
    calc {
      EscapeText("&amp;");
      "&amp;" + EscapeText("amp;");
      { EscapeTextPlain("amp;"); }
      "&amp;" + "amp;";
    }
  }

  // ---------------------------------------------------------------------
  // csrfSafeMethod

  /** `/^(GET|HEAD|OPTIONS|TRACE)$/.test(httpMethod)`: one of the four names,
      spelled exactly. */
  predicate CsrfSafeMethod(httpMethod: string)
  {
    httpMethod == "GET" || httpMethod == "HEAD" || httpMethod == "OPTIONS" || httpMethod == "TRACE"
  }

  /** The ajax set-up adds the X-CSRFToken header to a request that is
      neither of a safe method nor cross-domain. */
  function SendsCsrfToken(httpMethod: string, crossDomain: bool): (r: bool)
    ensures r ==> !crossDomain
    ensures r <==> !CsrfSafeMethod(httpMethod) && !crossDomain
  {
    !(CsrfSafeMethod(httpMethod) || crossDomain)
  }

  /** The test is case-sensitive: the lower-case spelling of a safe method
      is not safe, and every safe name is in capitals. This is no way round
      the token: jQuery upper-cases the request type before `beforeSend`
      runs, so a lower-case method never reaches the test through `$.ajax`;
      had it done so, the only effect would be a token sent with a read. */
  lemma CsrfCaseSensitive(httpMethod: string)
    requires CsrfSafeMethod(httpMethod)
    ensures !CsrfSafeMethod(Lower(httpMethod))
    ensures forall i :: 0 <= i < |httpMethod| ==> IsUpper(httpMethod[i])
  {
    assert Lower(httpMethod)[0] == LowerChar(httpMethod[0]);
  }

  /** Requests that change data carry the token on the same domain. */
  lemma WritesSendToken(crossDomain: bool)
    ensures SendsCsrfToken("POST", crossDomain) <==> !crossDomain
    ensures SendsCsrfToken("PUT", crossDomain) <==> !crossDomain
    ensures SendsCsrfToken("PATCH", crossDomain) <==> !crossDomain
    ensures SendsCsrfToken("DELETE", crossDomain) <==> !crossDomain
  {
  }

  // ---------------------------------------------------------------------
  // formFileTree

  /** The `accept-extensions` data attribute as jQuery reads it: missing or
      falsy, a parsed JSON list, or plain text. */
  datatype Extensions = NoExtensions | ExtensionList(items: seq<string>) | ExtensionText(text: string)

  /** `$accept_extensions && $accept_extensions.indexOf(ext) > -1`: an
      element of a list, a substring of a text. */
  predicate Accepts(exts: Extensions, ext: string)
  {
    match exts
    case NoExtensions => false
    case ExtensionList(items) => ext in items
    case ExtensionText(text) => Contains(text, ext)
  }

  /** What `_setInputValue` leaves in the input for the clicked entry. */
  function Selection(item: Option<string>, exts: Extensions, acceptFolder: Option<int>): (r: string)
  {
    if item.None? || item.value == "" then ""
    else if EndsWith(item.value, "/") then
      if acceptFolder == Some(1) then item.value else ""
    else
      var parts := Split(item.value, ".");
      if |parts| > 1 && Accepts(exts, "." + parts[|parts| - 1]) then item.value else ""
  }

  /** A folder is taken exactly when the picker accepts folders. */
  lemma SelectionFolder(item: string, exts: Extensions, acceptFolder: Option<int>)
    requires EndsWith(item, "/")
    ensures Selection(Some(item), exts, acceptFolder) == (if acceptFolder == Some(1) then item else "")
  {
  }

  /** A file is taken exactly when it has an extension, the text after its
      last dot, that the picker accepts. */
  lemma SelectionFile(item: string, exts: Extensions, acceptFolder: Option<int>)
    requires item != "" && !EndsWith(item, "/")
    ensures Selection(Some(item), exts, acceptFolder) == item ||
      Selection(Some(item), exts, acceptFolder) == ""
    ensures Selection(Some(item), exts, acceptFolder) == item <==>
      '.' in item && Accepts(exts, "." + Split(item, ".")[|Split(item, ".")| - 1])
  {
    SplitOnDot(item);
  }

  /** A name splits into more than one piece exactly when it holds a dot. */
  lemma SplitOnDot(item: string)
    ensures |Split(item, ".")| > 1 <==> '.' in item
  {
    SplitLast(item, '.');
    assert "." == ['.'];
  }

  /** That extension ends the file name and holds no other dot. */
  lemma FileExtension(item: string)
    requires '.' in item
    ensures var ext := "." + Split(item, ".")[|Split(item, ".")| - 1];
      EndsWith(item, ext) && '.' !in ext[1..]
  {
    SplitLast(item, '.');
    assert "." == ['.'];
    var last := Split(item, ".")[|Split(item, ".")| - 1];
    assert ("." + last)[1..] == last;
  }

  /** A text lacking the first character of `sub` does not contain it. */
  lemma {:induction false} NotContainsFirst(text: string, sub: string)
    requires sub != [] && sub[0] !in text
    ensures !Contains(text, sub)
    decreases |text|
  {
    if text != [] {
      assert text[0] in text;
      NotContainsFirst(text[1..], sub);
      assert forall x :: x in text[1..] ==> x in text;
    }
  }

  /** A text that holds no dot accepts no file: `False`, which the server
      writes when no extensions are configured, blocks every file. */
  lemma NoDotAcceptsNoFile(text: string, item: string, acceptFolder: Option<int>)
    requires '.' !in text
    requires !EndsWith(item, "/")
    ensures Selection(Some(item), ExtensionText(text), acceptFolder) == ""
  {
    if item != "" {
      var parts := Split(item, ".");
      NotContainsFirst(text, "." + parts[|parts| - 1]);
    }
  }

  /** The picker's input and the two data attributes it reads. */
  class FileTreeInput {
    var value: string
    var invalid: bool
    const acceptExtensions: Extensions
    const acceptFolder: Option<int>

    constructor(acceptExtensions: Extensions, acceptFolder: Option<int>, value: string, invalid: bool)
      ensures this.acceptExtensions == acceptExtensions && this.acceptFolder == acceptFolder
      ensures this.value == value && this.invalid == invalid
    {
      this.acceptExtensions := acceptExtensions;
      this.acceptFolder := acceptFolder;
      this.value := value;
      this.invalid := invalid;
    }

    /** `_setInputValue`: the input is cleared and its error mark removed,
        then the entry is written when it is an accepted folder or file. */
    method SetInputValue(item: Option<string>)
      modifies this
      ensures value == Selection(item, acceptExtensions, acceptFolder)
      ensures !invalid
    {
      value := "";
      invalid := false;
      if item.Some? && item.value != "" {
        if EndsWith(item.value, "/") {
          if acceptFolder == Some(1) {
            value := item.value;
          }
        } else {
          var parts := Split(item.value, ".");
          if |parts| > 1 {
            var ext := "." + parts[|parts| - 1];
            if Accepts(acceptExtensions, ext) {
              value := item.value;
            }
          }
        }
      }
    }
  }

  // ---------------------------------------------------------------------
  // formWizard

  /** Which of the three buttons are shown (`d-flex`) rather than hidden
      (`d-none`). */
  datatype Buttons = Buttons(previous: bool, next: bool, submit: bool)

  /** `_updateButtons` for a tab out of `tabs`. */
  function ButtonsAt(tab: int, tabs: int): (b: Buttons)
    ensures b.previous <==> tab != 0
    ensures b.submit <==> tab == tabs - 1
    ensures b.next <==> !b.submit
  {
    Buttons(tab != 0, tab != tabs - 1, tab == tabs - 1)
  }

  /** The shown buttons never lead out of the tabs: "previous" is absent on
      the first tab, "next" on the last, where "submit" takes its place. */
  lemma ButtonsStayInRange(tab: int, tabs: int)
    requires 0 <= tab < tabs
    ensures ButtonsAt(tab, tabs).previous ==> 0 <= tab - 1
    ensures ButtonsAt(tab, tabs).next ==> tab + 1 < tabs
    ensures ButtonsAt(tab, tabs).submit <==> tab + 1 == tabs
  {
  }

  /** A wizard: its tabs, the current one, the buttons' visibility and the
      `form-is-invalid` flag the validation sets. */
  class Wizard {
    var currentTab: int
    var buttons: Buttons
    var formIsInvalid: bool
    const tabs: nat
    /** Both "previous" and "next" exist; otherwise the buttons are not
        touched. */
    const hasButtons: bool

    /** The tab is one of the wizard's and the buttons match it. */
    predicate Valid()
      reads this
    {
      0 <= currentTab < tabs && (hasButtons ==> buttons == ButtonsAt(currentTab, tabs))
    }

    /** The constructor starts at tab 0; the buttons keep the state the page
        rendered them in. */
    constructor(tabs: nat, hasButtons: bool, buttons: Buttons)
      ensures this.tabs == tabs && this.hasButtons == hasButtons && this.buttons == buttons
      ensures currentTab == 0 && !formIsInvalid
    {
      this.tabs := tabs;
      this.hasButtons := hasButtons;
      this.buttons := buttons;
      currentTab := 0;
      formIsInvalid := false;
    }

    method SetFormInvalid(flag: bool)
      modifies this
      ensures formIsInvalid == flag
      ensures currentTab == old(currentTab) && buttons == old(buttons)
    {
      formIsInvalid := flag;
    }

    /** `_updateButtons`. */
    method UpdateButtons()
      modifies this
      ensures currentTab == old(currentTab) && formIsInvalid == old(formIsInvalid)
      ensures buttons == if hasButtons then ButtonsAt(currentTab, tabs) else old(buttons)
    {
      if !hasButtons {
        return;
      }
      var previous, next, submit := buttons.previous, buttons.next, buttons.submit;
      if currentTab == 0 {
        previous := false;
      } else {
        previous := true;
      }
      if currentTab == tabs - 1 {
        next := false;
        submit := true;
      } else {
        next := true;
        submit := false;
      }
      buttons := Buttons(previous, next, submit);
    }

    /** `_changeTab`: ignored while the form is marked invalid. */
    method ChangeTab(direction: int)
      modifies this
      ensures formIsInvalid == old(formIsInvalid)
      ensures old(formIsInvalid) ==> currentTab == old(currentTab) && buttons == old(buttons)
      ensures !old(formIsInvalid) ==> (currentTab == old(currentTab) + direction &&
        buttons == if hasButtons then ButtonsAt(currentTab, tabs) else old(buttons))
    {
      if !formIsInvalid {
        currentTab := currentTab + direction;
        UpdateButtons();
      }
    }

    /** The click on a tab of the navigation, also ignored while the form
        is marked invalid. */
    method SelectTab(index: int)
      modifies this
      ensures formIsInvalid == old(formIsInvalid)
      ensures old(formIsInvalid) ==> currentTab == old(currentTab) && buttons == old(buttons)
      ensures !old(formIsInvalid) ==> (currentTab == index &&
        buttons == if hasButtons then ButtonsAt(currentTab, tabs) else old(buttons))
    {
      if !formIsInvalid {
        currentTab := index;
        UpdateButtons();
      }
    }

    /** A click on the shown "previous" button keeps the wizard valid. */
    method Previous()
      requires Valid() && hasButtons && buttons.previous
      modifies this
      ensures Valid()
      ensures currentTab == if old(formIsInvalid) then old(currentTab) else old(currentTab) - 1
    {
      ButtonsStayInRange(currentTab, tabs);
      ChangeTab(-1);
    }

    /** A click on the shown "next" button keeps the wizard valid. */
    method Next()
      requires Valid() && hasButtons && buttons.next
      modifies this
      ensures Valid()
      ensures currentTab == if old(formIsInvalid) then old(currentTab) else old(currentTab) + 1
    {
      ButtonsStayInRange(currentTab, tabs);
      ChangeTab(1);
    }
  }

  // ---------------------------------------------------------------------
  // formSet

  /** A formset row: its form index (the `__prefix__` it was made with),
      whether it is shown, and whether its DELETE box is ticked. */
  datatype Row = Row(index: int, visible: bool, deleteTicked: bool)

  /** The `[data-form-set-item]:visible` count. */
  function VisibleCount(rows: seq<Row>): (n: nat)
    ensures n <= |rows|
    decreases |rows|
  {
    if rows == [] then 0
    else VisibleCount(rows[..|rows| - 1]) + (if rows[|rows| - 1].visible then 1 else 0)
  }

  lemma VisibleSnoc(rows: seq<Row>, r: Row)
    ensures VisibleCount(rows + [r]) == VisibleCount(rows) + (if r.visible then 1 else 0)
  {
    assert (rows + [r])[..|rows|] == rows;
  }

  /** Hiding one row lowers the count by one when it was shown. */
  lemma {:induction false} VisibleHide(rows: seq<Row>, i: nat, r: Row)
    requires i < |rows| && !r.visible
    ensures VisibleCount(rows[i := r]) == VisibleCount(rows) - (if rows[i].visible then 1 else 0)
    decreases |rows|
  {
    var n := |rows| - 1;
    assert rows[i := r][..n] == if i == n then rows[..n] else rows[..n][i := r];
    if i < n {
      VisibleHide(rows[..n], i, r);
    }
  }

  /** The rows are numbered by their form index, as the management form's
      TOTAL_FORMS expects. */
  predicate Numbered(rows: seq<Row>)
  {
    forall k :: 0 <= k < |rows| ==> rows[k].index == k
  }

  /** The formset's rows, TOTAL_FORMS, the two limits and whether add and
      the delete buttons are disabled. */
  class FormSet {
    var rows: seq<Row>
    var totalForms: int
    var addDisabled: bool
    var deleteDisabled: bool
    const minNum: int
    const maxNum: int

    /** TOTAL_FORMS counts every row, shown or deleted, and the rows are
        numbered in order. */
    predicate Valid()
      reads this
    {
      totalForms == |rows| && Numbered(rows)
    }

    /** The server renders the rows numbered and TOTAL_FORMS as their
        count. */
    constructor(rows: seq<Row>, minNum: int, maxNum: int, addDisabled: bool, deleteDisabled: bool)
      requires Numbered(rows)
      ensures Valid()
      ensures this.rows == rows && this.minNum == minNum && this.maxNum == maxNum
      ensures this.addDisabled == addDisabled && this.deleteDisabled == deleteDisabled
    {
      this.rows := rows;
      totalForms := |rows|;
      this.minNum := minNum;
      this.maxNum := maxNum;
      this.addDisabled := addDisabled;
      this.deleteDisabled := deleteDisabled;
    }

    /** `_addFormset`: a shown row numbered after all others; add is
        disabled when the shown count reaches the maximum, the deletes
        exactly when it is at most the minimum. */
    method AddFormset()
      modifies this
      ensures rows == old(rows) + [Row(|old(rows)|, true, false)]
      ensures totalForms == |rows|
      ensures old(Valid()) ==> Valid()
      ensures VisibleCount(rows) == VisibleCount(old(rows)) + 1
      ensures addDisabled == (old(addDisabled) || VisibleCount(rows) == maxNum)
      ensures deleteDisabled == (VisibleCount(rows) <= minNum)
    {
      var counter := VisibleCount(rows);
      var count := |rows|;
      rows := rows + [Row(count, true, false)];
      VisibleSnoc(old(rows), Row(count, true, false));
      totalForms := count + 1;
      if counter + 1 == maxNum {
        addDisabled := true;
      }
      if counter < minNum {
        deleteDisabled := true;
      } else {
        deleteDisabled := false;
      }
    }

    /** `_deleteFormset` on row i: the deletes are disabled exactly when
        one less than the shown count is the minimum, add is enabled again
        when it is below the maximum, and the row is hidden with its DELETE
        box clicked. */
    method DeleteFormset(i: nat)
      requires i < |rows|
      modifies this
      ensures rows == old(rows)[i := Row(old(rows)[i].index, false, !old(rows)[i].deleteTicked)]
      ensures totalForms == old(totalForms)
      ensures old(Valid()) ==> Valid()
      ensures deleteDisabled == (VisibleCount(old(rows)) - 1 == minNum)
      ensures addDisabled == (old(addDisabled) && !(VisibleCount(old(rows)) - 1 < maxNum))
      ensures old(rows)[i].visible ==> VisibleCount(rows) == VisibleCount(old(rows)) - 1
    {
      var counter := VisibleCount(rows);
      if counter - 1 == minNum {
        deleteDisabled := true;
      } else {
        deleteDisabled := false;
      }
      var r := Row(rows[i].index, false, !rows[i].deleteTicked);
      VisibleHide(rows, i, r);
      rows := rows[i := r];
      if counter - 1 < maxNum {
        addDisabled := false;
      }
    }
  }
}

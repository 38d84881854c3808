/** The Ajax form and delete views: the submit flag set at dispatch, the
    validation pass over a form and its inline formsets, the error
    payload of an invalid post and the success payload of a saved one.
    Django dicts keep insertion order; here they are sequences of
    key/value pairs written by Put. Rendering an error list to HTML and
    the toaster's contents are opaque values. */
module AjaxViews {
  import opened Common
  import opened Dicts
  import Utils

  // ---------------------------------------------------------------------
  // AjaxFormView.dispatch

  /** `request.POST.get("submit", False)`, then True when truthy. */
  function SubmitFlag(post: map<string, string>): (r: Utils.Value)
    ensures Utils.Truthy(r) <==> "submit" in post && post["submit"] != ""
    ensures Utils.Truthy(r) ==> r == Utils.VBool(true)
  {
    if "submit" !in post then Utils.VBool(false)
    else if post["submit"] != "" then Utils.VBool(true)
    else Utils.VStr(post["submit"])
  }

  // ---------------------------------------------------------------------
  // The errors collected over the inline formsets

  type Messages = seq<string>

  /** A bound form: whether it is valid, its errors and the requirements
      its dependency rules computed. */
  datatype FormResult = FormResult(valid: bool, errors: Entries<Messages>, requirements: map<string, bool>)

  /** A bound inline formset: its prefix, whether it is valid, the error
      dict of each of its forms and its non-form errors. */
  datatype FormsetResult = FormsetResult(prefix: string, valid: bool, formErrors: seq<Entries<Messages>>,
                                         nonFormErrors: Messages)

  /** `"%s-%s-%s" % (prefix, index, field_name)` */
  function FieldKey(prefix: string, index: nat, field: string): string
  {
    prefix + "-" + IntToString(index) + "-" + field
  }

  lemma FieldKeyInjective(prefix: string, index: nat, f: string, g: string)
    requires FieldKey(prefix, index, f) == FieldKey(prefix, index, g)
    ensures f == g
  {
    var h := prefix + "-" + IntToString(index) + "-";
    assert FieldKey(prefix, index, f) == h + f && FieldKey(prefix, index, g) == h + g;
    assert f == (h + f)[|h|..] && g == (h + g)[|h|..];
  }

  /** The errors of form `index` of a formset, under their prefixed keys. */
  function AddFieldErrors(e: Entries<Messages>, prefix: string, index: nat, errs: Entries<Messages>): Entries<Messages>
    decreases |errs|
  {
    if errs == [] then e
    else
      var last := errs[|errs| - 1];
      Put(AddFieldErrors(e, prefix, index, errs[..|errs| - 1]), FieldKey(prefix, index, last.0), last.1)
  }

  /** The errors of every form of a formset, form by form. */
  function AddIndexed(e: Entries<Messages>, prefix: string, forms: seq<Entries<Messages>>): Entries<Messages>
    decreases |forms|
  {
    if forms == [] then e
    else AddFieldErrors(AddIndexed(e, prefix, forms[..|forms| - 1]), prefix, |forms| - 1, forms[|forms| - 1])
  }

  /** One formset's contribution: nothing when it is valid; otherwise its
      field errors, and its non-form errors under its prefix only when no
      error at all has been collected so far. */
  function AddFormset(e: Entries<Messages>, fs: FormsetResult): Entries<Messages>
  {
    if fs.valid then e
    else
      var e1 := AddIndexed(e, fs.prefix, fs.formErrors);
      if |e1| == 0 then Put(e1, fs.prefix, fs.nonFormErrors) else e1
  }

  /** The `extra_errors` of post. */
  function ExtraErrors(fss: seq<FormsetResult>): Entries<Messages>
    decreases |fss|
  {
    if fss == [] then [] else AddFormset(ExtraErrors(fss[..|fss| - 1]), fss[|fss| - 1])
  }

  predicate AllValid(fss: seq<FormsetResult>)
  {
    forall i :: 0 <= i < |fss| ==> fss[i].valid
  }

  /** Each error of a form is recorded under `<prefix>-<index>-<field>`
      with that form's messages; keys of other forms are untouched. */
  lemma {:induction false} AddFieldErrorsLookup(e: Entries<Messages>, prefix: string, index: nat, errs: Entries<Messages>)
    requires DistinctKeys(errs)
    ensures forall f :: Lookup(errs, f).Some? ==> Lookup(AddFieldErrors(e, prefix, index, errs), FieldKey(prefix, index, f)) == Lookup(errs, f)
    ensures forall k :: !StartsWith(k, prefix + "-" + IntToString(index) + "-") ==> Lookup(AddFieldErrors(e, prefix, index, errs), k) == Lookup(e, k)
    decreases |errs|
  {
    if errs != [] {
      var init := errs[..|errs| - 1];
      var last := errs[|errs| - 1];
      assert errs == init + [last];
      DistinctSnoc(init, last);
      AddFieldErrorsLookup(e, prefix, index, init);
      var r0 := AddFieldErrors(e, prefix, index, init);
      PutFacts(r0, FieldKey(prefix, index, last.0), last.1);
      forall f | Lookup(errs, f).Some?
        ensures Lookup(AddFieldErrors(e, prefix, index, errs), FieldKey(prefix, index, f)) == Lookup(errs, f)
      {
        LookupSnoc(init, last, f);
        LookupKeys(init, f);
        if f != last.0 {
          if FieldKey(prefix, index, f) == FieldKey(prefix, index, last.0) {
            FieldKeyInjective(prefix, index, f, last.0);
          }
        }
      }
      forall k | !StartsWith(k, prefix + "-" + IntToString(index) + "-")
        ensures Lookup(AddFieldErrors(e, prefix, index, errs), k) == Lookup(e, k)
      {
        var h := prefix + "-" + IntToString(index) + "-";
        assert FieldKey(prefix, index, last.0) == h + last.0;
        assert StartsWith(FieldKey(prefix, index, last.0), h);
      }
    }
  }

  /** The errors of a formset's forms leave nothing exactly when nothing was
      collected before and no form has an error. */
  lemma {:induction false} AddIndexedEmpty(e: Entries<Messages>, prefix: string, forms: seq<Entries<Messages>>)
    ensures AddIndexed(e, prefix, forms) == [] <==> e == [] && forall i :: 0 <= i < |forms| ==> forms[i] == []
    decreases |forms|
  {
    if forms != [] {
      var init := forms[..|forms| - 1];
      AddIndexedEmpty(e, prefix, init);
      var errs := forms[|forms| - 1];
      if errs != [] {
        var last := errs[|errs| - 1];
        PutFacts(AddFieldErrors(AddIndexed(e, prefix, init), prefix, |forms| - 1, errs[..|errs| - 1]),
                 FieldKey(prefix, |forms| - 1, last.0), last.1);
      }
      if e == [] && forall i :: 0 <= i < |forms| ==> forms[i] == [] {
        assert forall i :: 0 <= i < |init| ==> init[i] == forms[i];
      }
      if AddIndexed(e, prefix, forms) == [] {
        forall i | 0 <= i < |forms| ensures forms[i] == [] {
          if i < |init| {
            assert init[i] == forms[i];
          }
        }
      }
    }
  }

  /** A formset contributes nothing when valid; an invalid one records its
      non-form errors, alone, exactly when nothing was collected before
      and none of its forms has an error, and otherwise its field errors
      only. */
  lemma AddFormsetCases(e: Entries<Messages>, fs: FormsetResult)
    ensures fs.valid ==> AddFormset(e, fs) == e
    ensures !fs.valid && e == [] && (forall i :: 0 <= i < |fs.formErrors| ==> fs.formErrors[i] == []) ==>
      AddFormset(e, fs) == [(fs.prefix, fs.nonFormErrors)]
    ensures !fs.valid && !(e == [] && forall i :: 0 <= i < |fs.formErrors| ==> fs.formErrors[i] == []) ==>
      AddFormset(e, fs) == AddIndexed(e, fs.prefix, fs.formErrors)
  {
    AddIndexedEmpty(e, fs.prefix, fs.formErrors);
  }

  /** Valid formsets leave `extra_errors` empty. */
  lemma {:induction false} ExtraErrorsOfValid(fss: seq<FormsetResult>)
    requires AllValid(fss)
    ensures ExtraErrors(fss) == []
    decreases |fss|
  {
    if fss != [] {
      ExtraErrorsOfValid(fss[..|fss| - 1]);
    }
  }

  /** `extra_errors` is a dict. */
  lemma {:induction false} ExtraErrorsDistinct(fss: seq<FormsetResult>)
    ensures DistinctKeys(ExtraErrors(fss))
    decreases |fss|
  {
    if fss != [] {
      ExtraErrorsDistinct(fss[..|fss| - 1]);
      var fs := fss[|fss| - 1];
      if !fs.valid {
        AddIndexedDistinct(ExtraErrors(fss[..|fss| - 1]), fs.prefix, fs.formErrors);
        PutFacts(AddIndexed(ExtraErrors(fss[..|fss| - 1]), fs.prefix, fs.formErrors), fs.prefix, fs.nonFormErrors);
      }
    }
  }

  lemma {:induction false} AddFieldErrorsDistinct(e: Entries<Messages>, prefix: string, index: nat, errs: Entries<Messages>)
    requires DistinctKeys(e)
    ensures DistinctKeys(AddFieldErrors(e, prefix, index, errs))
    decreases |errs|
  {
    if errs != [] {
      var last := errs[|errs| - 1];
      AddFieldErrorsDistinct(e, prefix, index, errs[..|errs| - 1]);
      PutFacts(AddFieldErrors(e, prefix, index, errs[..|errs| - 1]), FieldKey(prefix, index, last.0), last.1);
    }
  }

  lemma {:induction false} AddIndexedDistinct(e: Entries<Messages>, prefix: string, forms: seq<Entries<Messages>>)
    requires DistinctKeys(e)
    ensures DistinctKeys(AddIndexed(e, prefix, forms))
    decreases |forms|
  {
    if forms != [] {
      AddIndexedDistinct(e, prefix, forms[..|forms| - 1]);
      AddFieldErrorsDistinct(AddIndexed(e, prefix, forms[..|forms| - 1]), prefix, |forms| - 1, forms[|forms| - 1]);
    }
  }

  // ---------------------------------------------------------------------
  // AjaxFormView.form_invalid

  /** `ErrorList.as_ul()`, rendered by Django. */
  datatype Html = AsUl(messages: Messages)

  /** The key an error is reported under: every key mentioning "__all__"
      collapses to "__all__". */
  function ReportKey(k: string): string
  {
    if Contains(k, "__all__") then "__all__" else k
  }

  /** The `formatted_errors` loop, as a fold over the error dict. */
  function FormatErrors(errs: Entries<Messages>): Entries<Html>
    decreases |errs|
  {
    if errs == [] then []
    else
      var last := errs[|errs| - 1];
      Put(FormatErrors(errs[..|errs| - 1]), ReportKey(last.0), AsUl(last.1))
  }

  /** The messages of the last error whose key mentions "__all__". */
  function LastAll(errs: Entries<Messages>): Option<Messages>
    decreases |errs|
  {
    if errs == [] then None
    else if Contains(errs[|errs| - 1].0, "__all__") then Some(errs[|errs| - 1].1)
    else LastAll(errs[..|errs| - 1])
  }

  function Rendered(m: Option<Messages>): Option<Html>
  {
    if m.Some? then Some(AsUl(m.value)) else None
  }

  /** A key without "__all__" is reported with its own messages; "__all__"
      carries the messages of the last key mentioning it. */
  lemma FormatErrorsLookup(errs: Entries<Messages>)
    requires DistinctKeys(errs)
    ensures forall k :: !Contains(k, "__all__") ==> Lookup(FormatErrors(errs), k) == Rendered(Lookup(errs, k))
    ensures Lookup(FormatErrors(errs), "__all__") == Rendered(LastAll(errs))
  {
    forall k | !Contains(k, "__all__")
      ensures Lookup(FormatErrors(errs), k) == Rendered(Lookup(errs, k))
    {
      FormatErrorsOther(errs, k);
    }
    FormatErrorsAll(errs);
  }

  lemma {:induction false} FormatErrorsOther(errs: Entries<Messages>, k: string)
    requires DistinctKeys(errs) && !Contains(k, "__all__")
    ensures Lookup(FormatErrors(errs), k) == Rendered(Lookup(errs, k))
    decreases |errs|
  {
    if errs != [] {
      var init := errs[..|errs| - 1];
      var last := errs[|errs| - 1];
      assert errs == init + [last];
      DistinctSnoc(init, last);
      FormatErrorsOther(init, k);
      PutLookup(FormatErrors(init), ReportKey(last.0), AsUl(last.1));
      ContainsSelf("__all__");
      LookupSnoc(init, last, k);
      LookupKeys(init, k);
    }
  }

  lemma {:induction false} FormatErrorsAll(errs: Entries<Messages>)
    ensures Lookup(FormatErrors(errs), "__all__") == Rendered(LastAll(errs))
    decreases |errs|
  {
    if errs != [] {
      var init := errs[..|errs| - 1];
      var last := errs[|errs| - 1];
      FormatErrorsAll(init);
      PutLookup(FormatErrors(init), ReportKey(last.0), AsUl(last.1));
    }
  }

  /** `errors.update(extra_errors)` when there are extra errors. */
  function Merge(errors: Entries<Messages>, extra: Entries<Messages>): Entries<Messages>
  {
    if |extra| > 0 then UpdateAll(errors, extra) else errors
  }

  // ---------------------------------------------------------------------
  // Responses

  datatype Response =
    | Success(saved: seq<nat>, context: map<string, Utils.Value>)
    | Invalid(errors: Entries<Html>, requirements: map<string, bool>, submit: string)

  function InvalidOf(form: FormResult, extra: Entries<Messages>): Response
  {
    Invalid(FormatErrors(Merge(form.errors, extra)), form.requirements, "error")
  }

  /** The error payload reports every field error of the form and of the
      formsets under its own key, a formset's entry winning over the
      form's, and the form's requirements. */
  lemma InvalidOfLookup(form: FormResult, fss: seq<FormsetResult>, k: string)
    requires DistinctKeys(form.errors) && !Contains(k, "__all__")
    ensures InvalidOf(form, ExtraErrors(fss)).submit == "error"
    ensures InvalidOf(form, ExtraErrors(fss)).requirements == form.requirements
    ensures Lookup(InvalidOf(form, ExtraErrors(fss)).errors, k) ==
      Rendered(if Lookup(ExtraErrors(fss), k).Some? then Lookup(ExtraErrors(fss), k) else Lookup(form.errors, k))
  {
    var extra := ExtraErrors(fss);
    ExtraErrorsDistinct(fss);
    UpdateAllLookup(form.errors, extra);
    FormatErrorsLookup(Merge(form.errors, extra));
    if |extra| == 0 {
      assert Lookup(extra, k).None?;
    }
  }

  /** The indices of the formsets that changed, in order. */
  function ChangedIndices(changed: seq<bool>): (r: seq<nat>)
    ensures forall i: nat :: i in r <==> i < |changed| && changed[i]
    ensures forall a, b :: 0 <= a < b < |r| ==> r[a] < r[b]
    decreases |changed|
  {
    if changed == [] then []
    else
      var n := |changed| - 1;
      var init := ChangedIndices(changed[..n]);
      assert forall i :: i in init ==> i < n;
      assert forall a :: 0 <= a < |init| ==> init[a] in init;
      if changed[n] then init + [n] else init
  }

  /** The success payload: `submit` "success", the toaster when there is a
      success message, then `extra_context`, whose keys win. */
  function SuccessContext(toaster: Option<Utils.Value>, extra: Option<map<string, Utils.Value>>): (r: map<string, Utils.Value>)
    ensures r.Keys == {"submit"} + (if toaster.Some? then {"toaster"} else {}) + (if extra.Some? then extra.value.Keys else {})
    ensures extra.Some? ==> forall k :: k in extra.value ==> r[k] == extra.value[k]
    ensures (extra.None? || "submit" !in extra.value) ==> r["submit"] == Utils.VStr("success")
    ensures toaster.Some? && (extra.None? || "toaster" !in extra.value) ==> r["toaster"] == toaster.value
  {
    var base := map["submit" := Utils.VStr("success")];
    var withToaster := if toaster.Some? then base["toaster" := toaster.value] else base;
    withToaster + (if extra.Some? then extra.value else map[])
  }

  /** The outcome of post: saved exactly when submitted and the form and
      every formset are valid. */
  function PostOutcome(submit: bool, form: FormResult, fss: seq<FormsetResult>, changed: seq<bool>,
                       toaster: Option<Utils.Value>, extra: Option<map<string, Utils.Value>>): Response
  {
    if submit && form.valid && AllValid(fss) then Success(ChangedIndices(changed), SuccessContext(toaster, extra))
    else InvalidOf(form, ExtraErrors(fss))
  }

  /** Validation-only posts never save; a saved post reports success and
      saves exactly the changed formsets. */
  lemma PostOutcomeMeans(submit: bool, form: FormResult, fss: seq<FormsetResult>, changed: seq<bool>,
                         toaster: Option<Utils.Value>, extra: Option<map<string, Utils.Value>>)
    ensures PostOutcome(submit, form, fss, changed, toaster, extra).Success? <==> submit && form.valid && AllValid(fss)
    ensures !submit ==> PostOutcome(submit, form, fss, changed, toaster, extra) == InvalidOf(form, ExtraErrors(fss))
    ensures !submit && form.valid && AllValid(fss) ==>
      PostOutcome(submit, form, fss, changed, toaster, extra) == Invalid(FormatErrors(form.errors), form.requirements, "error")
  {
    if AllValid(fss) {
      ExtraErrorsOfValid(fss);
    }
  }

  // ---------------------------------------------------------------------
  // The loops of post, form_valid and form_invalid

  /** The innermost loop of post: one form's errors. */
  method RecordFieldErrors(e: Entries<Messages>, prefix: string, index: nat, errs: Entries<Messages>)
    returns (r: Entries<Messages>)
    ensures r == AddFieldErrors(e, prefix, index, errs)
  {
    r := e;
    var j := 0;
    while j < |errs|
      invariant 0 <= j <= |errs|
      invariant r == AddFieldErrors(e, prefix, index, errs[..j])
    {
      assert errs[..j + 1][..j] == errs[..j];
      r := Put(r, FieldKey(prefix, index, errs[j].0), errs[j].1);
      j := j + 1;
    }
    assert errs[..j] == errs;
  }

  /** The loop of post over one invalid formset. */
  method RecordFormsetErrors(e: Entries<Messages>, fs: FormsetResult) returns (r: Entries<Messages>)
    requires !fs.valid
    ensures r == AddFormset(e, fs)
  {
    r := e;
    var index := 0;
    while index < |fs.formErrors|
      invariant 0 <= index <= |fs.formErrors|
      invariant r == AddIndexed(e, fs.prefix, fs.formErrors[..index])
    {
      assert fs.formErrors[..index + 1][..index] == fs.formErrors[..index];
      r := RecordFieldErrors(r, fs.prefix, index, fs.formErrors[index]);
      index := index + 1;
    }
    assert fs.formErrors[..index] == fs.formErrors;
    if |r| == 0 {
      r := Put(r, fs.prefix, fs.nonFormErrors);
    }
  }

  /** form_valid's loop: the formsets saved, those that changed. */
  method SaveChanged(changed: seq<bool>) returns (saved: seq<nat>)
    ensures saved == ChangedIndices(changed)
  {
    saved := [];
    var i := 0;
    while i < |changed|
      invariant 0 <= i <= |changed|
      invariant saved == ChangedIndices(changed[..i])
    {
      assert changed[..i + 1][..i] == changed[..i];
      if changed[i] {
        saved := saved + [i];
      }
      i := i + 1;
    }
    assert changed[..i] == changed;
  }

  method FormValid(changed: seq<bool>, toaster: Option<Utils.Value>, extra: Option<map<string, Utils.Value>>)
    returns (r: Response)
    ensures r == Success(ChangedIndices(changed), SuccessContext(toaster, extra))
  {
    var saved := SaveChanged(changed);
    r := Success(saved, SuccessContext(toaster, extra));
  }

  method FormInvalid(form: FormResult, extra: Entries<Messages>) returns (r: Response)
    ensures r == InvalidOf(form, extra)
  {
    var errors := form.errors;
    if |extra| > 0 {
      errors := UpdateAll(errors, extra);
    }
    var formatted: Entries<Html> := [];
    var i := 0;
    while i < |errors|
      invariant 0 <= i <= |errors|
      invariant formatted == FormatErrors(errors[..i])
    {
      assert errors[..i + 1][..i] == errors[..i];
      formatted := Put(formatted, ReportKey(errors[i].0), AsUl(errors[i].1));
      i := i + 1;
    }
    assert errors[..i] == errors;
    r := Invalid(formatted, form.requirements, "error");
  }

  /** AjaxFormView: the submit flag is set at dispatch and read by post. */
  class AjaxFormView {
    var submit: Utils.Value

    constructor()
      ensures submit == Utils.VBool(false)
    {
      submit := Utils.VBool(false);
    }

    method Dispatch(post: map<string, string>)
      modifies this
      ensures submit == SubmitFlag(post)
    {
      submit := if "submit" in post then Utils.VStr(post["submit"]) else Utils.VBool(false);
      if Utils.Truthy(submit) {
        submit := Utils.VBool(true);
      }
    }

    /** post: validate every formset and the form, collecting the formset
        errors, then save or report. */
    method Post(form: FormResult, fss: seq<FormsetResult>, changed: seq<bool>,
                toaster: Option<Utils.Value>, extra: Option<map<string, Utils.Value>>) returns (r: Response)
      ensures r == PostOutcome(Utils.Truthy(submit), form, fss, changed, toaster, extra)
    {
      var extraErrors: Entries<Messages> := [];
      var isValid := true;
      var i := 0;
      while i < |fss|
        invariant 0 <= i <= |fss|
        invariant extraErrors == ExtraErrors(fss[..i])
        invariant isValid <==> AllValid(fss[..i])
      {
        assert fss[..i + 1][..i] == fss[..i];
        if !fss[i].valid {
          isValid := false;
          extraErrors := RecordFormsetErrors(extraErrors, fss[i]);
        }
        i := i + 1;
      }
      assert fss[..i] == fss;
      if !form.valid {
        isValid := false;
      }
      if Utils.Truthy(submit) && isValid {
        r := FormValid(changed, toaster, extra);
        return;
      }
      r := FormInvalid(form, extraErrors);
    }
  }

  // ---------------------------------------------------------------------
  // AjaxDeleteView.post

  datatype Deletion = Deletion(deleted: bool, context: map<string, Utils.Value>)

  /** The object is deleted only when `submit` is posted and truthy; the
      payload is then the toaster and "success" under `extra_context`,
      and `{}` otherwise. */
  function DeletePost(post: map<string, string>, toaster: Utils.Value, extra: Option<map<string, Utils.Value>>): (r: Deletion)
    ensures r.deleted <==> "submit" in post && post["submit"] != ""
    ensures !r.deleted ==> r.context == map[]
    ensures r.deleted ==> r.context == SuccessContext(Some(toaster), extra)
  {
    if "submit" in post && post["submit"] != "" then Deletion(true, SuccessContext(Some(toaster), extra))
    else Deletion(false, map[])
  }
}

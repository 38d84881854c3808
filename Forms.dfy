/** The form layer shared by every form of the back office: the grid
    classes of fields, conditional field requirements (rules of the form
    "if field X has value V then fields Y, Z are (not) required", with
    hidden dependent fields), the wizard steps, the default prefixes and
    the inline formset's row counting, duplicate rejection and saving. */
module Forms {
  import opened Common
  import Utils

  // ---------------------------------------------------------------------
  // Field dependencies: the rule data

  /** One target of a rule: `{"field": ..., "required": ...}`. */
  datatype Then = Then(field: string, required: bool)

  /** One entry of `if_statements`: the controlling field, the optional
      operator, the value to compare with and the targets. */
  datatype Rule = Rule(field: string, operator: Option<string>, ifValue: Utils.Value, thens: seq<Then>)

  /** What the rules read and write of a form field: its `required` flag,
      its `classes` list (no list reads as an empty one), whether it
      carries `data-field-hidden`, and its "required" error message. */
  datatype FieldState = FieldState(required: bool, classes: seq<string>, hiddenAttr: bool, requiredMessage: string)

  /** A validation error with its code; an error built from a bare
      message, as the rules build the "required" one, has no code. */
  datatype FormError = FormError(code: Option<string>, message: string)

  /** The state the rules change: the fields, the requirements map sent to
      the client, and the error dict, which is None until validation has
      started. */
  datatype Deps = Deps(
    fields: map<string, FieldState>,
    requirements: map<string, bool>,
    errors: Option<map<string, seq<FormError>>>)

  type Data = map<string, Utils.Value>

  /** `field_data.get(name)` */
  function DataGet(data: Data, k: string): Utils.Value
  {
    if k in data then data[k] else Utils.VNone
  }

  function ThenFields(thens: seq<Then>): set<string>
  {
    set t | t in thens :: t.field
  }

  lemma ThenFieldsLast(thens: seq<Then>)
    requires thens != []
    ensures ThenFields(thens) == ThenFields(thens[..|thens| - 1]) + {thens[|thens| - 1].field}
  {
    assert thens == thens[..|thens| - 1] + [thens[|thens| - 1]];
  }

  // ---------------------------------------------------------------------
  // Construction

  /** _hide_field_dependencies: every declared hidden field gets
      `data-field-hidden` and a "d-none" class. */
  function Hide(declared: map<string, FieldState>, hidden: seq<string>): map<string, FieldState>
  {
    map f | f in declared :: if f in hidden then declared[f].(hiddenAttr := true, classes := declared[f].classes + ["d-none"]) else declared[f]
  }

  /** The hidden fields end with a "d-none" class and carry the hidden
      marker; every other field is as declared and no field is added. */
  lemma HideShape(declared: map<string, FieldState>, hidden: seq<string>)
    ensures Hide(declared, hidden).Keys == declared.Keys
    ensures forall f :: f in declared && f in hidden ==>
      var s := Hide(declared, hidden)[f];
      s.hiddenAttr && s.classes == declared[f].classes + ["d-none"] && "d-none" in s.classes &&
      s.required == declared[f].required && s.requiredMessage == declared[f].requiredMessage
    ensures forall f :: f in declared && f !in hidden ==> Hide(declared, hidden)[f] == declared[f]
  {
    forall f | f in declared && f in hidden
      ensures "d-none" in Hide(declared, hidden)[f].classes
    {
      var c := Hide(declared, hidden)[f].classes;
      assert c[|c| - 1] == "d-none";
    }
  }

  // ---------------------------------------------------------------------
  // Deciding a rule

  datatype Decision =
    | Clear  // the hidden targets are emptied
    | Apply  // the targets' requirements are updated
    | Skip   // nothing happens

  /** One list item as the rule compares it: strings stay, model
      instances become their primary key as text. */
  function ItemAsStr(v: Utils.Value): Utils.Value
  {
    if v.VObj? then Utils.VStr(IntToString(v.pk)) else v
  }

  /** The items of a list value as strings; an item that is neither a
      string nor a model instance has no `pk`. */
  function ListItemsAsStr(xs: seq<Utils.Value>): (r: Result<seq<Utils.Value>>)
    ensures r.Ok? <==> forall i :: 0 <= i < |xs| ==> xs[i].VStr? || xs[i].VObj?
    ensures r.Ok? ==> |r.value| == |xs| && forall i :: 0 <= i < |xs| ==> r.value[i] == ItemAsStr(xs[i])
    ensures r.Err? ==> r.error == "AttributeError"
    decreases |xs|
  {
    if xs == [] then Ok([])
    else if !(xs[0].VStr? || xs[0].VObj?) then Err("AttributeError")
    else
      match ListItemsAsStr(xs[1..])
      case Err(e) => Err(e)
      case Ok(rest) =>
        assert forall i :: 1 <= i < |xs| ==> xs[i] == xs[1..][i - 1];
        Ok([ItemAsStr(xs[0])] + rest)
  }

  /** `float(v)`: a boolean is 0 or 1, a number is itself, a string is
      read as a decimal literal (see FloatText) and anything else is a
      TypeError. */
  function ToFloat(v: Utils.Value): Result<real>
  {
    match v
    case VBool(b) => Ok(if b then 1.0 else 0.0)
    case VNum(n) => Ok(n)
    case VStr(s) => (match FloatText(s) case Some(x) => Ok(x) case None => Err("ValueError"))
    case _ => Err("TypeError")
  }

  /** The first position whose character satisfies `p` (the length when
      there is none). */
  function IndexWhere(s: string, p: char -> bool): (k: nat)
    ensures k <= |s|
    ensures k < |s| ==> p(s[k])
    ensures forall i :: 0 <= i < k ==> !p(s[i])
    decreases |s|
  {
    if s == [] || p(s[0]) then 0 else 1 + IndexWhere(s[1..], p)
  }

  predicate IsExpMark(c: char) { c == 'e' || c == 'E' }

  predicate AllDigits(s: string)
  {
    forall i :: 0 <= i < |s| ==> IsDigit(s[i])
  }

  function Pow10(n: nat): (r: nat)
    ensures r >= 1
  {
    if n == 0 then 1 else 10 * Pow10(n - 1)
  }

  /** `10 ** e * x` for an integer exponent. */
  function Scale(x: real, e: int): real
  {
    if e >= 0 then x * Pow10(e) as real else x / Pow10(-e) as real
  }

  predicate IsPoint(c: char) { c == '.' }

  lemma ScaleZero(x: real)
    ensures Scale(x, 0) == x
  {
    assert Pow10(0) == 1;
  }

  /** The digits before and after an optional point, at least one of
      them, as the integer they spell together and the number of digits
      after the point. */
  function Mantissa(s: string): Option<(nat, nat)>
  {
    var k := IndexWhere(s, IsPoint);
    var whole := s[..k];
    var frac := if k < |s| then s[k + 1..] else [];
    if |whole| + |frac| > 0 && AllDigits(whole) && AllDigits(frac) then Some((ParseNat(whole + frac), |frac|))
    else None
  }

  /** An optional sign and the text after it. */
  function SignOf(s: string): (bool, string)
  {
    if s != [] && (s[0] == '+' || s[0] == '-') then (s[0] == '-', s[1..]) else (false, s)
  }

  /** The exponent after `e`/`E`: a sign and digits. */
  function Exponent(s: string): Option<int>
  {
    var (neg, digits) := SignOf(s);
    if IsDigits(digits) then Some(if neg then 0 - ParseNat(digits) else ParseNat(digits)) else None
  }

  /** An unsigned decimal literal: a mantissa and an optional exponent. */
  function Unsigned(u: string): Option<real>
  {
    var e := IndexWhere(u, IsExpMark);
    var m := Mantissa(u[..e]);
    var x := if e == |u| then Some(0) else Exponent(u[e + 1..]);
    if m.None? || x.None? then None else Some(Scale(m.value.0 as real, x.value - m.value.1))
  }

  /** A decimal literal as `float()` reads it, surrounding whitespace
      removed: a sign, digits with an optional point, and an optional
      exponent `e`/`E` with its own sign and digits. */
  function FloatText(s: string): Option<real>
  {
    var (neg, u) := SignOf(Strip(s));
    match Unsigned(u)
    case None => None
    case Some(x) => Some(if neg then 0.0 - x else x)
  }

  /** Digits alone are read as the number they spell. */
  lemma UnsignedDigits(u: string)
    requires IsDigits(u)
    ensures Unsigned(u) == Some(ParseNat(u) as real)
  {
    assert forall i :: 0 <= i < |u| ==> !IsExpMark(u[i]);
    var e := IndexWhere(u, IsExpMark);
    assert e == |u|;
    assert u[..e] == u;
    MantissaDigits(u);
    ScaleZero(ParseNat(u) as real);
  }

  /** Every text `int()` reads is read by `float()` as the same number. */
  lemma FloatTextInt(s: string)
    requires ParseInt(Strip(s)).Some?
    ensures FloatText(s) == Some(ParseInt(Strip(s)).value as real)
  {
    var t := Strip(s);
    if IsDigits(t) {
      assert t[0] != '+' && t[0] != '-';
      UnsignedDigits(t);
    } else {
      UnsignedDigits(t[1..]);
    }
  }

  /** A point splits the digits into a whole and a fractional part: the
      digits together, scaled down by one power of ten per fractional digit. */
  lemma UnsignedFraction(whole: string, frac: string)
    requires AllDigits(whole) && AllDigits(frac) && |whole| + |frac| > 0
    ensures Unsigned(whole + "." + frac) == Some(Scale(ParseNat(whole + frac) as real, 0 - |frac|))
  {
    var s := whole + "." + frac;
    assert forall i :: 0 <= i < |s| ==> !IsExpMark(s[i]) by {
      forall i | 0 <= i < |s| ensures !IsExpMark(s[i]) {
        if i < |whole| { assert s[i] == whole[i]; }
        else if i > |whole| { assert s[i] == frac[i - |whole| - 1]; }
      }
    }
    var e := IndexWhere(s, IsExpMark);
    assert e == |s|;
    assert s[..e] == s;
    var k := IndexWhere(s, IsPoint);
    assert forall i :: 0 <= i < |whole| ==> s[i] == whole[i];
    assert s[|whole|] == '.';
    assert k == |whole|;
    assert s[..k] == whole && s[k + 1..] == frac;
    assert Mantissa(s) == Some((ParseNat(whole + frac), |frac|));
  }

  lemma FloatTextFraction(whole: string, frac: string)
    requires AllDigits(whole) && AllDigits(frac) && |whole| + |frac| > 0
    ensures FloatText(whole + "." + frac) == Some(Scale(ParseNat(whole + frac) as real, 0 - |frac|))
  {
    var s := whole + "." + frac;
    assert !IsSpace(s[0]) by {
      if whole != [] { assert s[0] == whole[0]; }
    }
    assert !IsSpace(s[|s| - 1]) by {
      if frac != [] { assert s[|s| - 1] == frac[|frac| - 1]; }
    }
    StripUnchanged(s);
    assert s[0] != '+' && s[0] != '-';
    UnsignedFraction(whole, frac);
  }

  /** Digits, `e` and digits: the first number times ten to the power
      of the second. */
  lemma UnsignedExponent(mant: string, exp: string)
    requires IsDigits(mant) && IsDigits(exp)
    ensures Unsigned(mant + "e" + exp) == Some(Scale(ParseNat(mant) as real, ParseNat(exp)))
  {
    var u := mant + "e" + exp;
    assert forall i :: 0 <= i < |mant| ==> u[i] == mant[i] && !IsExpMark(u[i]);
    assert u[|mant|] == 'e';
    var e := IndexWhere(u, IsExpMark);
    assert e == |mant|;
    assert u[..e] == mant && u[e + 1..] == exp;
    MantissaDigits(mant);
    assert exp[0] != '+' && exp[0] != '-';
    assert Exponent(exp) == Some(ParseNat(exp) as int);
  }

  lemma MantissaDigits(u: string)
    requires IsDigits(u)
    ensures Mantissa(u) == Some((ParseNat(u), 0))
  {
    assert forall i :: 0 <= i < |u| ==> !IsPoint(u[i]);
    var k := IndexWhere(u, IsPoint);
    assert k == |u|;
    assert u[..k] == u && u + [] == u;
  }

  lemma FloatTextExponent(mant: string, exp: string)
    requires IsDigits(mant) && IsDigits(exp)
    ensures FloatText(mant + "e" + exp) == Some(Scale(ParseNat(mant) as real, ParseNat(exp)))
  {
    var s := mant + "e" + exp;
    assert s[0] == mant[0] && s[|s| - 1] == exp[|exp| - 1];
    StripUnchanged(s);
    UnsignedExponent(mant, exp);
  }

  /** The operator of a non-boolean rule. */
  function Operator(declared: Option<string>, ctrl: Utils.Value): string
  {
    if ctrl.VList? then "in"
    else if declared.None? || declared.value == "" then "=="
    else declared.value
  }

  /** The two sides of the comparison: list items become strings, and a
      string of digits turns both sides into numbers. */
  function Operands(ctrl: Utils.Value, ifValue: Utils.Value): Result<(Utils.Value, Utils.Value)>
  {
    if ctrl.VList? then
      match ListItemsAsStr(ctrl.items)
      case Err(e) => Err(e)
      case Ok(xs) => Ok((Utils.VList(xs), ifValue))
    else if ctrl.VStr? && IsDigits(ctrl.s) then
      match ToFloat(ifValue)
      case Err(e) => Err(e)
      case Ok(x) => Ok((Utils.VNum(ParseNat(ctrl.s) as real), Utils.VNum(x)))
    else Ok((ctrl, ifValue))
  }

  function Outcome(t: Result<bool>): Result<Decision>
  {
    match t
    case Err(e) => Err(e)
    case Ok(b) => Ok(if b then Apply else Clear)
  }

  /** What `_check_dependencies` does with one rule on the current data. */
  function Decide(r: Rule, data: Data): Result<Decision>
  {
    var ctrl := DataGet(data, r.field);
    if ctrl.VNone? then Ok(Clear)
    else if r.ifValue.VBool? then Ok(if r.ifValue.b && Utils.Truthy(ctrl) then Apply else Skip)
    else
      match Operands(ctrl, r.ifValue)
      case Err(e) => Err(e)
      case Ok(p) => Outcome(Utils.GetTruth(p.0, Operator(r.operator, ctrl), p.1))
  }

  /** A missing or None controlling value clears; a boolean rule applies
      exactly when it is `True` and the value is truthy and otherwise does
      nothing; a non-boolean rule never just skips: it applies when the
      comparison holds and clears when it does not. A list value is checked
      for containing the rule's value whatever operator is declared; other
      values use the declared operator, `==` when none is declared, and a
      string of digits is compared as a number. */
  lemma DecideCases(r: Rule, data: Data)
    ensures DataGet(data, r.field).VNone? ==> Decide(r, data) == Ok(Clear)
    ensures !DataGet(data, r.field).VNone? && r.ifValue.VBool? ==>
      Decide(r, data).Ok? && Decide(r, data) != Ok(Clear) &&
      (Decide(r, data) == Ok(Apply) <==> r.ifValue.b && Utils.Truthy(DataGet(data, r.field)))
    ensures !r.ifValue.VBool? ==> Decide(r, data) != Ok(Skip)
    ensures var ctrl := DataGet(data, r.field);
      ctrl.VList? && !r.ifValue.VBool? && (forall i :: 0 <= i < |ctrl.items| ==> ctrl.items[i].VStr?) ==>
        Decide(r, data) == Ok(if exists i :: 0 <= i < |ctrl.items| && Utils.PyEq(ctrl.items[i], r.ifValue) then Apply else Clear)
    ensures var ctrl := DataGet(data, r.field);
      !ctrl.VNone? && !ctrl.VList? && !(ctrl.VStr? && IsDigits(ctrl.s)) && !r.ifValue.VBool? ==>
        Decide(r, data) == Outcome(Utils.GetTruth(ctrl,
          if r.operator.Some? && r.operator.value != "" then r.operator.value else "==", r.ifValue))
    ensures var ctrl := DataGet(data, r.field);
      ctrl.VStr? && IsDigits(ctrl.s) && !r.ifValue.VBool? && ToFloat(r.ifValue).Ok? ==>
        Decide(r, data) == Outcome(Utils.GetTruth(Utils.VNum(ParseNat(ctrl.s) as real),
          if r.operator.Some? && r.operator.value != "" then r.operator.value else "==",
          Utils.VNum(ToFloat(r.ifValue).value)))
  {
    var ctrl := DataGet(data, r.field);
    if ctrl.VList? && !r.ifValue.VBool? && (forall i :: 0 <= i < |ctrl.items| ==> ctrl.items[i].VStr?) {
      var xs := ListItemsAsStr(ctrl.items).value;
      assert xs == ctrl.items;
    }
  }

  // ---------------------------------------------------------------------
  // Applying a rule's targets

  /** `list.remove(x)`: the first occurrence goes. */
  function RemoveFirst(xs: seq<string>, x: string): (r: seq<string>)
    requires x in xs
    ensures |r| == |xs| - 1
    ensures multiset(r) == multiset(xs) - multiset{x}
    decreases |xs|
  {
    assert xs == [xs[0]] + xs[1..];
    if xs[0] == x then xs[1..]
    else [xs[0]] + RemoveFirst(xs[1..], x)
  }

  /** One target of `_update_required_fields`: a hidden target loses its
      "d-none" class (the list must hold one), a required target becomes
      required only when it has a truthy value, a non-required target
      stops being required. */
  function ThenRequired(hidden: seq<string>, fields: map<string, FieldState>, data: Data, t: Then): Result<map<string, FieldState>>
  {
    var f := t.field;
    if f in hidden && f !in fields then Err("KeyError")
    else if f in hidden && "d-none" !in fields[f].classes then Err("ValueError")
    else
      var fs := if f in hidden then fields[f := fields[f].(classes := RemoveFirst(fields[f].classes, "d-none"))] else fields;
      if t.required then
        if !Utils.Truthy(DataGet(data, f)) then Ok(fs)
        else if f in fs then Ok(fs[f := fs[f].(required := true)])
        else Err("KeyError")
      else if f in fs then Ok(fs[f := fs[f].(required := false)])
      else Err("KeyError")
  }

  predicate NotRequiredError(e: FormError)
  {
    e.code != Some("required")
  }

  /** One target of `_update_error_messages`. */
  function ThenErrors(fields: map<string, FieldState>, errors: map<string, seq<FormError>>,
                      reqs: map<string, bool>, data: Data, t: Then): Result<(map<string, seq<FormError>>, map<string, bool>)>
  {
    var f := t.field;
    if t.required then
      if f !in errors && !Utils.Truthy(DataGet(data, f)) then
        if f in fields then Ok((errors[f := [FormError(None, fields[f].requiredMessage)]], reqs[f := true]))
        else Err("KeyError")
      else Ok((errors, reqs[f := true]))
    else if f in errors && errors[f] != [] then Ok((errors[f := Filter(errors[f], NotRequiredError)], reqs[f := false]))
    else Ok((errors, reqs[f := false]))
  }

  /** A required target with no value and no error gets exactly the field's
      required message, as an error without a code; one with an error keeps
      it; a non-required target keeps its errors except those of code
      "required"; the target's
      requirement follows the rule; nothing else changes. The only failure
      is a required, empty, error-free target that is not a field. */
  lemma ThenErrorsFacts(fields: map<string, FieldState>, errors: map<string, seq<FormError>>,
                        reqs: map<string, bool>, data: Data, t: Then)
    ensures var r := ThenErrors(fields, errors, reqs, data, t);
      (r.Err? <==> t.required && t.field !in errors && !Utils.Truthy(DataGet(data, t.field)) && t.field !in fields) &&
      (r.Ok? ==>
        r.value.1 == reqs[t.field := t.required] &&
        r.value.0.Keys == errors.Keys + (if t.required && !Utils.Truthy(DataGet(data, t.field)) then {t.field} else {}) &&
        (forall k :: k in errors && k != t.field ==> r.value.0[k] == errors[k]) &&
        (t.required && t.field in errors ==> r.value.0[t.field] == errors[t.field]) &&
        (t.required && t.field !in errors && !Utils.Truthy(DataGet(data, t.field)) ==>
          r.value.0[t.field] == [FormError(None, fields[t.field].requiredMessage)]) &&
        (!t.required && t.field in errors ==>
          r.value.0[t.field] == Filter(errors[t.field], NotRequiredError) &&
          forall e :: e in r.value.0[t.field] <==> e in errors[t.field] && e.code != Some("required")))
  {
  }

  /** The required error a rule adds has no code, so a later rule that
      makes the same field optional does not take it away: the form stays
      invalid. */
  lemma InjectedRequiredErrorKept(fields: map<string, FieldState>, errors: map<string, seq<FormError>>,
                                  reqs: map<string, bool>, data: Data, f: string)
    requires f in fields && f !in errors && !Utils.Truthy(DataGet(data, f))
    ensures var a := ThenErrors(fields, errors, reqs, data, Then(f, true));
      a.Ok? &&
      var b := ThenErrors(fields, a.value.0, a.value.1, data, Then(f, false));
      b.Ok? && b.value.0[f] == [FormError(None, fields[f].requiredMessage)] && !b.value.1[f]
  {
    var e := FormError(None, fields[f].requiredMessage);
    assert Filter([e], NotRequiredError) == [e] by {
      assert [e][1..] == [];
    }
  }

  /** Applying one target to the form state, in the mode the error dict
      selects. */
  function FireOne(hidden: seq<string>, s: Deps, data: Data, t: Then): Result<Deps>
  {
    match s.errors
    case Some(errs) =>
      (match ThenErrors(s.fields, errs, s.requirements, data, t)
       case Err(e) => Err(e)
       case Ok(p) => Ok(Deps(s.fields, p.1, Some(p.0))))
    case None =>
      (match ThenRequired(hidden, s.fields, data, t)
       case Err(e) => Err(e)
       case Ok(fs) => Ok(s.(fields := fs)))
  }

  /** Applying the targets in order; the first failing one ends it. */
  function Fire(hidden: seq<string>, s: Deps, data: Data, thens: seq<Then>): Result<Deps>
    decreases |thens|
  {
    if thens == [] then Ok(s)
    else
      match Fire(hidden, s, data, thens[..|thens| - 1])
      case Err(e) => Err(e)
      case Ok(s') => FireOne(hidden, s', data, thens[|thens| - 1])
  }

  lemma {:induction false} FireErrStays(hidden: seq<string>, s: Deps, data: Data, thens: seq<Then>, i: nat)
    requires i <= |thens| && Fire(hidden, s, data, thens[..i]).Err?
    ensures Fire(hidden, s, data, thens) == Fire(hidden, s, data, thens[..i])
    decreases |thens| - i
  {
    if i < |thens| {
      assert thens[..i + 1][..i] == thens[..i];
      FireErrStays(hidden, s, data, thens, i + 1);
    } else {
      assert thens[..i] == thens;
    }
  }

  /** During validation the targets change only the error dict and the
      requirements, and only at target fields; the fields are untouched. */
  lemma {:induction false} FireErrorsFrame(hidden: seq<string>, s: Deps, data: Data, thens: seq<Then>)
    requires s.errors.Some? && Fire(hidden, s, data, thens).Ok?
    ensures var s' := Fire(hidden, s, data, thens).value;
      s'.fields == s.fields && s'.errors.Some? &&
      (forall k :: k in s.errors.value && k !in ThenFields(thens) ==>
        k in s'.errors.value && s'.errors.value[k] == s.errors.value[k]) &&
      (forall k :: k in s'.errors.value ==> k in s.errors.value || k in ThenFields(thens))
    decreases |thens|
  {
    if thens != [] {
      var init := thens[..|thens| - 1];
      var t := thens[|thens| - 1];
      FireLast(hidden, s, data, thens);
      FireErrorsFrame(hidden, s, data, init);
      FireOneErrorsFrame(hidden, Fire(hidden, s, data, init).value, data, t);
      ThenFieldsLast(thens);
    }
  }

  /** One target during validation changes the error dict at its own field
      only. */
  lemma FireOneErrorsFrame(hidden: seq<string>, m: Deps, data: Data, t: Then)
    requires m.errors.Some? && FireOne(hidden, m, data, t).Ok?
    ensures var m' := FireOne(hidden, m, data, t).value;
      m'.fields == m.fields && m'.errors.Some? &&
      (forall k :: k in m.errors.value && k != t.field ==> k in m'.errors.value && m'.errors.value[k] == m.errors.value[k]) &&
      (forall k :: k in m'.errors.value ==> k in m.errors.value || k == t.field)
  {
    ThenErrorsFacts(m.fields, m.errors.value, m.requirements, data, t);
  }

  /** One target during validation sets its own requirement. */
  lemma FireOneRequirement(hidden: seq<string>, m: Deps, data: Data, t: Then)
    requires m.errors.Some? && FireOne(hidden, m, data, t).Ok?
    ensures FireOne(hidden, m, data, t).value.errors.Some?
    ensures FireOne(hidden, m, data, t).value.requirements == m.requirements[t.field := t.required]
  {
  }

  /** Unfolding the last target. */
  lemma FireLast(hidden: seq<string>, s: Deps, data: Data, thens: seq<Then>)
    requires thens != [] && Fire(hidden, s, data, thens).Ok?
    ensures Fire(hidden, s, data, thens[..|thens| - 1]).Ok?
    ensures Fire(hidden, s, data, thens) == FireOne(hidden, Fire(hidden, s, data, thens[..|thens| - 1]).value, data, thens[|thens| - 1])
  {
  }

  /** During validation the requirements gain the targets and keep every
      other entry. */
  lemma {:induction false} FireErrorsRequirementsFrame(hidden: seq<string>, s: Deps, data: Data, thens: seq<Then>)
    requires s.errors.Some? && Fire(hidden, s, data, thens).Ok?
    ensures var s' := Fire(hidden, s, data, thens).value;
      s'.errors.Some? &&
      s'.requirements.Keys == s.requirements.Keys + ThenFields(thens) &&
      (forall k :: k in s.requirements && k !in ThenFields(thens) ==> s'.requirements[k] == s.requirements[k])
    decreases |thens|
  {
    if thens != [] {
      var init := thens[..|thens| - 1];
      var t := thens[|thens| - 1];
      FireLast(hidden, s, data, thens);
      FireErrorsRequirementsFrame(hidden, s, data, init);
      var m := Fire(hidden, s, data, init).value;
      FireOneRequirement(hidden, m, data, t);
      var r' := Fire(hidden, s, data, thens).value.requirements;
      assert r' == m.requirements[t.field := t.required];
      assert r'.Keys == m.requirements.Keys + {t.field};
      ThenFieldsLast(thens);
      forall k | k in s.requirements && k !in ThenFields(thens)
        ensures r'[k] == s.requirements[k]
      {
        assert k != t.field && k !in ThenFields(init);
      }
    }
  }

  /** The `required` flag of the last target on field `f`. */
  function LastRequired(thens: seq<Then>, f: string): (r: Option<bool>)
    ensures r.Some? <==> f in ThenFields(thens)
    decreases |thens|
  {
    if thens == [] then None
    else
      var init := thens[..|thens| - 1];
      ThenFieldsLast(thens);
      if thens[|thens| - 1].field == f then Some(thens[|thens| - 1].required)
      else LastRequired(init, f)
  }

  /** During validation every target ends with the requirement of its last
      occurrence. */
  lemma {:induction false} FireErrorsLastWins(hidden: seq<string>, s: Deps, data: Data, thens: seq<Then>)
    requires s.errors.Some? && Fire(hidden, s, data, thens).Ok?
    ensures var s' := Fire(hidden, s, data, thens).value;
      forall f :: LastRequired(thens, f).Some? ==> f in s'.requirements && s'.requirements[f] == LastRequired(thens, f).value
    decreases |thens|
  {
    if thens != [] {
      var init := thens[..|thens| - 1];
      var t := thens[|thens| - 1];
      FireLast(hidden, s, data, thens);
      FireErrorsLastWins(hidden, s, data, init);
      FireErrorsRequirementsFrame(hidden, s, data, init);
      FireOneRequirement(hidden, Fire(hidden, s, data, init).value, data, t);
    }
  }

  /** One target before validation changes only its own field, and of
      it only the `required` flag and the classes. */
  lemma ThenRequiredFrame(hidden: seq<string>, fields: map<string, FieldState>, data: Data, t: Then)
    requires ThenRequired(hidden, fields, data, t).Ok?
    ensures var fs := ThenRequired(hidden, fields, data, t).value;
      fs.Keys == fields.Keys &&
      (forall k :: k in fields && k != t.field ==> fs[k] == fields[k]) &&
      (forall k :: k in fields ==> fs[k].hiddenAttr == fields[k].hiddenAttr && fs[k].requiredMessage == fields[k].requiredMessage)
  {
  }

  /** Before validation the targets change only the fields named by the
      targets, and only their `required` flag and classes; requirements and
      errors are untouched. */
  lemma {:induction false} FireRequiredMode(hidden: seq<string>, s: Deps, data: Data, thens: seq<Then>)
    requires s.errors.None? && Fire(hidden, s, data, thens).Ok?
    ensures var s' := Fire(hidden, s, data, thens).value;
      s'.requirements == s.requirements && s'.errors.None? &&
      s'.fields.Keys == s.fields.Keys &&
      (forall k :: k in s.fields && k !in ThenFields(thens) ==> s'.fields[k] == s.fields[k]) &&
      (forall k :: k in s.fields ==>
        s'.fields[k].hiddenAttr == s.fields[k].hiddenAttr &&
        s'.fields[k].requiredMessage == s.fields[k].requiredMessage)
    decreases |thens|
  {
    if thens != [] {
      var init := thens[..|thens| - 1];
      var t := thens[|thens| - 1];
      assert Fire(hidden, s, data, init).Ok?;
      FireRequiredMode(hidden, s, data, init);
      var m := Fire(hidden, s, data, init).value;
      assert ThenRequired(hidden, m.fields, data, t).Ok?;
      ThenRequiredFrame(hidden, m.fields, data, t);
      assert Fire(hidden, s, data, thens).value == m.(fields := ThenRequired(hidden, m.fields, data, t).value);
      ThenFieldsLast(thens);
    }
  }

  /** Before validation a hidden target can be shown only once: a second
      target on the same hidden field finds no "d-none" class left. */
  lemma RequiredModeRefireFails(hidden: seq<string>, s: Deps, data: Data, t: Then)
    requires s.errors.None? && t.field in hidden && t.field in s.fields
    requires s.fields[t.field].classes == ["d-none"]
    ensures Fire(hidden, s, data, [t, t]) == Err("ValueError")
  {
    assert [t, t][..1] == [t];
    assert [t][..0] == [];
    assert RemoveFirst(["d-none"], "d-none") == [];
    var tr := ThenRequired(hidden, s.fields, data, t);
    assert tr.Ok? && t.field in tr.value && tr.value[t.field].classes == [];
    assert Fire(hidden, s, data, [t]) == Ok(s.(fields := tr.value));
    assert Fire(hidden, s, data, [t, t]) == FireOne(hidden, s.(fields := tr.value), data, t);
  }

  // ---------------------------------------------------------------------
  // Clearing a rule's hidden targets

  function EmptyThens(hidden: seq<string>, data: Data, thens: seq<Then>): Data
    decreases |thens|
  {
    if thens == [] then data
    else
      var d := EmptyThens(hidden, data, thens[..|thens| - 1]);
      var f := thens[|thens| - 1].field;
      if f in hidden then d[f := Utils.VNone] else d
  }

  /** _empty_hidden_fields: with hidden fields declared, every target that
      is hidden is set to None. */
  function EmptyHidden(hidden: seq<string>, data: Data, thens: seq<Then>): Data
  {
    if hidden == [] then data else EmptyThens(hidden, data, thens)
  }

  /** The hidden targets, and only they, are None afterwards (added when
      they were missing); every other value is unchanged. */
  lemma {:induction false} EmptyThensShape(hidden: seq<string>, data: Data, thens: seq<Then>)
    ensures var d := EmptyThens(hidden, data, thens);
      (forall k :: k in d <==> k in data || (k in ThenFields(thens) && k in hidden)) &&
      (forall k :: k in ThenFields(thens) && k in hidden ==> d[k] == Utils.VNone) &&
      (forall k :: k in data && !(k in ThenFields(thens) && k in hidden) ==> d[k] == data[k])
    decreases |thens|
  {
    if thens != [] {
      var init := thens[..|thens| - 1];
      EmptyThensShape(hidden, data, init);
      ThenFieldsLast(thens);
    }
  }

  lemma EmptyHiddenShape(hidden: seq<string>, data: Data, thens: seq<Then>)
    ensures hidden == [] ==> EmptyHidden(hidden, data, thens) == data
    ensures var d := EmptyHidden(hidden, data, thens);
      (forall k :: k in d <==> k in data || (k in ThenFields(thens) && k in hidden)) &&
      (forall k :: k in ThenFields(thens) && k in hidden ==> d[k] == Utils.VNone) &&
      (forall k :: k in data && !(k in ThenFields(thens) && k in hidden) ==> d[k] == data[k])
  {
    EmptyThensShape(hidden, data, thens);
  }

  // ---------------------------------------------------------------------
  // All rules

  /** One rule: clearing changes the data only, applying the form state
      only. */
  function RuleStep(hidden: seq<string>, s: Deps, data: Data, r: Rule): Result<(Deps, Data)>
  {
    match Decide(r, data)
    case Err(e) => Err(e)
    case Ok(Clear) => Ok((s, EmptyHidden(hidden, data, r.thens)))
    case Ok(Skip) => Ok((s, data))
    case Ok(Apply) =>
      match Fire(hidden, s, data, r.thens)
      case Err(e) => Err(e)
      case Ok(s') => Ok((s', data))
  }

  /** The rules in order, each on the data the previous ones left; the
      first failure ends it. */
  function CheckRules(hidden: seq<string>, s: Deps, data: Data, rules: seq<Rule>): Result<(Deps, Data)>
    decreases |rules|
  {
    if rules == [] then Ok((s, data))
    else
      match CheckRules(hidden, s, data, rules[..|rules| - 1])
      case Err(e) => Err(e)
      case Ok(p) => RuleStep(hidden, p.0, p.1, rules[|rules| - 1])
  }

  lemma {:induction false} CheckRulesErrStays(hidden: seq<string>, s: Deps, data: Data, rules: seq<Rule>, i: nat)
    requires i <= |rules| && CheckRules(hidden, s, data, rules[..i]).Err?
    ensures CheckRules(hidden, s, data, rules) == CheckRules(hidden, s, data, rules[..i])
    decreases |rules| - i
  {
    if i < |rules| {
      assert rules[..i + 1][..i] == rules[..i];
      CheckRulesErrStays(hidden, s, data, rules, i + 1);
    } else {
      assert rules[..i] == rules;
    }
  }

  /** Before validation the rules never change the requirements or the
      fields' key set; during validation they never change the fields, and
      the data they return never loses a key. */
  lemma {:induction false} CheckRulesModes(hidden: seq<string>, s: Deps, data: Data, rules: seq<Rule>)
    requires CheckRules(hidden, s, data, rules).Ok?
    ensures var p := CheckRules(hidden, s, data, rules).value;
      (s.errors.None? ==> p.0.errors.None? && p.0.requirements == s.requirements && p.0.fields.Keys == s.fields.Keys) &&
      (s.errors.Some? ==> p.0.errors.Some? && p.0.fields == s.fields) &&
      data.Keys <= p.1.Keys
    decreases |rules|
  {
    if rules != [] {
      var init := rules[..|rules| - 1];
      var r := rules[|rules| - 1];
      assert CheckRules(hidden, s, data, init).Ok?;
      CheckRulesModes(hidden, s, data, init);
      var p := CheckRules(hidden, s, data, init).value;
      EmptyHiddenShape(hidden, p.1, r.thens);
      if Decide(r, p.1) == Ok(Apply) {
        if s.errors.None? {
          FireRequiredMode(hidden, p.0, p.1, r.thens);
        } else {
          FireErrorsFrame(hidden, p.0, p.1, r.thens);
        }
      }
    }
  }

  // ---------------------------------------------------------------------
  // The form

  /** FieldDependenciesMixin on a form. */
  class FieldDependencies {
    var fields: map<string, FieldState>
    var requirements: map<string, bool>
    var errors: Option<map<string, seq<FormError>>>
    const hidden: seq<string>
    const rules: seq<Rule>

    function State(): Deps
      reads this
    {
      Deps(fields, requirements, errors)
    }

    /** __init__ up to the initial check: the requirements start as each
        field's own flag and the hidden fields are hidden. */
    constructor(declared: map<string, FieldState>, hidden: seq<string>, rules: seq<Rule>)
      ensures this.hidden == hidden && this.rules == rules
      ensures requirements == map f | f in declared :: declared[f].required
      ensures fields == Hide(declared, hidden)
      ensures errors.None?
    {
      this.hidden := hidden;
      this.rules := rules;
      requirements := map f | f in declared :: declared[f].required;
      fields := Hide(declared, hidden);
      errors := None;
    }

    /** Field validation has run and produced these errors. */
    method StartValidation(fieldErrors: map<string, seq<FormError>>)
      modifies this
      ensures fields == old(fields) && requirements == old(requirements)
      ensures errors == Some(fieldErrors)
    {
      errors := Some(fieldErrors);
    }

    /** One target of _update_required_fields. */
    method RequireOne(data: Data, t: Then) returns (r: Result<()>)
      requires errors.None?
      modifies this
      ensures errors.None?
      ensures r.Ok? <==> FireOne(hidden, old(State()), data, t).Ok?
      ensures r.Ok? ==> State() == FireOne(hidden, old(State()), data, t).value
      ensures r.Err? ==> r.error == FireOne(hidden, old(State()), data, t).error
    {
      var f := t.field;
      if f in hidden {
        if f !in fields {
          return Err("KeyError");
        }
        if "d-none" !in fields[f].classes {
          return Err("ValueError");
        }
        fields := fields[f := fields[f].(classes := RemoveFirst(fields[f].classes, "d-none"))];
      }
      if t.required {
        if Utils.Truthy(DataGet(data, f)) {
          if f !in fields {
            return Err("KeyError");
          }
          fields := fields[f := fields[f].(required := true)];
        }
      } else {
        if f !in fields {
          return Err("KeyError");
        }
        fields := fields[f := fields[f].(required := false)];
      }
      r := Ok(());
    }

    /** _update_required_fields */
    method UpdateRequiredFields(data: Data, thens: seq<Then>) returns (r: Result<()>)
      requires errors.None?
      modifies this
      ensures r.Ok? <==> Fire(hidden, old(State()), data, thens).Ok?
      ensures r.Ok? ==> State() == Fire(hidden, old(State()), data, thens).value
      ensures r.Err? ==> r.error == Fire(hidden, old(State()), data, thens).error
    {
      var j := 0;
      while j < |thens|
        invariant 0 <= j <= |thens|
        invariant errors.None?
        invariant Fire(hidden, old(State()), data, thens[..j]) == Ok(State())
      {
        assert thens[..j + 1][..j] == thens[..j];
        var step := RequireOne(data, thens[j]);
        if step.Err? {
          FireErrStays(hidden, old(State()), data, thens, j + 1);
          return Err(step.error);
        }
        j := j + 1;
      }
      assert thens[..j] == thens;
      r := Ok(());
    }

    /** One target of _update_error_messages. */
    method ErrorsOne(data: Data, t: Then) returns (r: Result<()>)
      requires errors.Some?
      modifies this
      ensures errors.Some?
      ensures r.Ok? <==> FireOne(hidden, old(State()), data, t).Ok?
      ensures r.Ok? ==> State() == FireOne(hidden, old(State()), data, t).value
      ensures r.Err? ==> r.error == FireOne(hidden, old(State()), data, t).error
    {
      var f := t.field;
      var errs := errors.value;
      if t.required {
        if f !in errs && !Utils.Truthy(DataGet(data, f)) {
          if f !in fields {
            return Err("KeyError");
          }
          errors := Some(errs[f := [FormError(None, fields[f].requiredMessage)]]);
        }
        requirements := requirements[f := true];
      } else {
        if f in errs && errs[f] != [] {
          var kept := WithoutRequired(errs[f]);
          errors := Some(errs[f := kept]);
        }
        requirements := requirements[f := false];
      }
      r := Ok(());
    }

    /** _update_error_messages */
    method UpdateErrorMessages(data: Data, thens: seq<Then>) returns (r: Result<()>)
      requires errors.Some?
      modifies this
      ensures r.Ok? <==> Fire(hidden, old(State()), data, thens).Ok?
      ensures r.Ok? ==> State() == Fire(hidden, old(State()), data, thens).value
      ensures r.Err? ==> r.error == Fire(hidden, old(State()), data, thens).error
    {
      var j := 0;
      while j < |thens|
        invariant 0 <= j <= |thens|
        invariant errors.Some?
        invariant Fire(hidden, old(State()), data, thens[..j]) == Ok(State())
      {
        assert thens[..j + 1][..j] == thens[..j];
        var step := ErrorsOne(data, thens[j]);
        if step.Err? {
          FireErrStays(hidden, old(State()), data, thens, j + 1);
          return Err(step.error);
        }
        j := j + 1;
      }
      assert thens[..j] == thens;
      r := Ok(());
    }

    /** The errors of a field other than those of code "required", in
        order. */
    static method WithoutRequired(es: seq<FormError>) returns (kept: seq<FormError>)
      ensures kept == Filter(es, NotRequiredError)
    {
      kept := [];
      var k := 0;
      while k < |es|
        invariant 0 <= k <= |es|
        invariant kept == Filter(es[..k], NotRequiredError)
      {
        FilterSnoc(es[..k], es[k], NotRequiredError);
        assert es[..k + 1] == es[..k] + [es[k]];
        if es[k].code != Some("required") {
          kept := kept + [es[k]];
        }
        k := k + 1;
      }
      assert es[..k] == es;
    }

    /** _empty_hidden_fields */
    method EmptyHiddenFields(data: Data, thens: seq<Then>) returns (d: Data)
      ensures d == EmptyHidden(hidden, data, thens)
    {
      d := data;
      if hidden == [] {
        return;
      }
      var j := 0;
      while j < |thens|
        invariant 0 <= j <= |thens|
        invariant d == EmptyThens(hidden, data, thens[..j])
      {
        assert thens[..j + 1][..j] == thens[..j];
        if thens[j].field in hidden {
          d := d[thens[j].field := Utils.VNone];
        }
        j := j + 1;
      }
      assert thens[..j] == thens;
    }

    /** _check_dependencies (also the second half of `clean`): the rules in
        order; the returned data is what the caller's dict holds after the
        call. */
    method CheckDependencies(data: Data) returns (r: Result<Data>)
      modifies this
      ensures r.Ok? <==> CheckRules(hidden, old(State()), data, rules).Ok?
      ensures r.Ok? ==> (State(), r.value) == CheckRules(hidden, old(State()), data, rules).value
      ensures r.Err? ==> r.error == CheckRules(hidden, old(State()), data, rules).error
    {
      var d := data;
      var i := 0;
      while i < |rules|
        invariant 0 <= i <= |rules|
        invariant CheckRules(hidden, old(State()), data, rules[..i]) == Ok((State(), d))
      {
        assert rules[..i + 1][..i] == rules[..i];
        var rule := rules[i];
        var decision := Decide(rule, d);
        if decision.Err? {
          CheckRulesErrStays(hidden, old(State()), data, rules, i + 1);
          return Err(decision.error);
        }
        if decision.value == Clear {
          d := EmptyHiddenFields(d, rule.thens);
        } else if decision.value == Apply {
          var fired: Result<()>;
          if errors.Some? {
            fired := UpdateErrorMessages(d, rule.thens);
          } else {
            fired := UpdateRequiredFields(d, rule.thens);
          }
          if fired.Err? {
            CheckRulesErrStays(hidden, old(State()), data, rules, i + 1);
            return Err(fired.error);
          }
        }
        i := i + 1;
      }
      assert rules[..i] == rules;
      r := Ok(d);
    }

    /** The end of __init__: a non-empty initial dict is checked, and
        changed in place; the result is its new content. */
    method CheckInitial(initial: Data) returns (r: Result<Data>)
      modifies this
      ensures initial == map[] ==> r == Ok(initial) && State() == old(State())
      ensures initial != map[] ==>
        (r.Ok? <==> CheckRules(hidden, old(State()), initial, rules).Ok?) &&
        (r.Ok? ==> (State(), r.value) == CheckRules(hidden, old(State()), initial, rules).value)
    {
      if initial == map[] {
        return Ok(initial);
      }
      r := CheckDependencies(initial);
    }
  }

  // ---------------------------------------------------------------------
  // GridFormMixin.init_grid

  /** An entry of `grid_data`: a field class, or a tuple of the field class
      and the classes of its sub-widgets. */
  datatype Grid = Grid(cls: string) | GridWithWidgets(cls: string, widgets: seq<string>)

  /** The grid class of a field and the `data-col` of each sub-widget. */
  datatype FieldGrid = FieldGrid(grid: string, widgetCols: seq<string>)

  function GridOf(gridData: map<string, Grid>, name: string): Grid
  {
    if name in gridData then gridData[name] else Grid("col-12")
  }

  /** init_grid for one field with `widgetCount` sub-widgets. */
  method InitGridField(gridData: map<string, Grid>, name: string, widgetCount: nat) returns (r: FieldGrid)
    ensures r.grid == GridOf(gridData, name).cls
    ensures |r.widgetCols| == widgetCount
    ensures forall i :: 0 <= i < widgetCount ==>
      r.widgetCols[i] == (if GridOf(gridData, name).GridWithWidgets? && i < |GridOf(gridData, name).widgets|
                          then GridOf(gridData, name).widgets[i] else "col")
  {
    var g := GridOf(gridData, name);
    var multi: seq<string> := if g.GridWithWidgets? then g.widgets else [];
    var cols: seq<string> := [];
    var index := 0;
    while index < widgetCount
      invariant 0 <= index <= widgetCount && |cols| == index
      invariant forall i :: 0 <= i < index ==> cols[i] == (if i < |multi| then multi[i] else "col")
    {
      if index < |multi| {
        cols := cols + [multi[index]];
      } else {
        cols := cols + ["col"];
      }
      index := index + 1;
    }
    r := FieldGrid(g.cls, cols);
  }

  // ---------------------------------------------------------------------
  // FormWizardMixin._steps

  datatype Step = Step(step: nat, text: Option<string>)

  /** The steps of a wizard from the texts of its entries: numbered from 1,
      one per entry, in order. */
  function Steps(texts: seq<Option<string>>): (r: seq<Step>)
    ensures |r| == |texts|
    ensures forall i :: 0 <= i < |texts| ==> r[i].step == i + 1 && r[i].text == texts[i]
    decreases |texts|
  {
    if texts == [] then []
    else Steps(texts[..|texts| - 1]) + [Step(|texts|, texts[|texts| - 1])]
  }

  // ---------------------------------------------------------------------
  // Default prefixes

  /** `re.sub(r"(?<!^)(?=[A-Z])", rep, s)`: `rep` before every upper-case
      letter that does not start the string. */
  function SubBeforeUpper(s: string, rep: string): string
    decreases |s|
  {
    if s == [] then []
    else
      var c := s[|s| - 1];
      SubBeforeUpper(s[..|s| - 1], rep) + (if |s| > 1 && IsUpper(c) then rep else []) + [c]
  }

  /** The substitution in the prefix code inserts the empty string, so it
      leaves the class name as it is. */
  lemma {:induction false} SubBeforeUpperEmpty(s: string)
    ensures SubBeforeUpper(s, "") == s
    decreases |s|
  {
    if s != [] {
      SubBeforeUpperEmpty(s[..|s| - 1]);
      assert s == s[..|s| - 1] + [s[|s| - 1]];
    }
  }

  /** get_default_prefix of a form class. */
  function DefaultPrefix(className: string): string
  {
    Lower(SubBeforeUpper(className, ""))
  }

  /** The prefix of a form: the given one, else the default. */
  function FormPrefix(given: Option<string>, className: string): string
  {
    if given.None? || given.value == "" then DefaultPrefix(className) else given.value
  }

  /** get_default_prefix of an inline formset class, after the prefix of
      Django's inline formset. */
  function FormsetPrefix(className: string, inlinePrefix: string): string
  {
    DefaultPrefix(className) + "-" + inlinePrefix
  }

  /** The default prefix is the lower-cased class name; a given non-empty
      prefix is kept; a formset prefix is the class's default prefix, a
      dash and the inline prefix. */
  lemma PrefixFacts(given: Option<string>, className: string, inlinePrefix: string)
    ensures DefaultPrefix(className) == Lower(className) && IsLowerCase(DefaultPrefix(className))
    ensures |DefaultPrefix(className)| == |className|
    ensures given.Some? && given.value != "" ==> FormPrefix(given, className) == given.value
    ensures given.None? ==> FormPrefix(given, className) == Lower(className)
    ensures StartsWith(FormsetPrefix(className, inlinePrefix), Lower(className) + "-")
    ensures FormsetPrefix(className, inlinePrefix)[|className| + 1..] == inlinePrefix
  {
    SubBeforeUpperEmpty(className);
    LowerIsLowerCase(className);
    var p := FormsetPrefix(className, inlinePrefix);
    assert p == (Lower(className) + "-") + inlinePrefix;
  }

  // ---------------------------------------------------------------------
  // BaseInlineFormSet

  /** One form of a formset: whether it is marked for deletion, the values
      of its cleaned data, the text of that dict, and whether it has
      errors. */
  datatype SubForm = SubForm(deleted: bool, values: seq<Utils.Value>, text: string, hasErrors: bool)

  /** `all(value is None for value in values)`, true of no values. */
  predicate AllNone(vs: seq<Utils.Value>)
  {
    forall i :: 0 <= i < |vs| ==> vs[i].VNone?
  }

  /** A form the row count counts. */
  predicate Filled(f: SubForm)
  {
    |f.values| > 0 && !AllNone(f.values)
  }

  function KeepFn(canDelete: bool): SubForm -> bool
  {
    (f: SubForm) => !(canDelete && f.deleted)
  }

  /** The forms that take part in validation. */
  function Kept(forms: seq<SubForm>, canDelete: bool): seq<SubForm>
  {
    Filter(forms, KeepFn(canDelete))
  }

  /** The number of rows checked against min_num and max_num. */
  function FilledCount(forms: seq<SubForm>, canDelete: bool): nat
  {
    |Filter(Kept(forms, canDelete), Filled)|
  }

  /** The error flags full_clean collects, one per form taking part. */
  function ErrorFlags(forms: seq<SubForm>, canDelete: bool): (r: seq<bool>)
    ensures |r| == |Kept(forms, canDelete)|
    ensures forall i :: 0 <= i < |r| ==> r[i] == Kept(forms, canDelete)[i].hasErrors
  {
    var k := Kept(forms, canDelete);
    seq(|k|, i requires 0 <= i < |k| => k[i].hasErrors)
  }

  datatype FormsetError = TooMany(maxNum: int) | TooFew(minNum: int) | DuplicateForms

  function Code(e: FormsetError): string
  {
    match e
    case TooMany(_) => "too_many_forms"
    case TooFew(_) => "too_few_forms"
    case DuplicateForms => "duplicate_forms"
  }

  /** The row-count check: too many rows is reported before too few. */
  function LimitError(count: nat, validateMax: bool, maxNum: int, validateMin: bool, minNum: int): Option<FormsetError>
  {
    if validateMax && count > maxNum then Some(TooMany(maxNum))
    else if validateMin && count < minNum then Some(TooFew(minNum))
    else None
  }

  /** No error exactly when the count is within every validated limit; an
      error names the limit it breaks. */
  lemma LimitErrorMeans(count: nat, validateMax: bool, maxNum: int, validateMin: bool, minNum: int)
    ensures LimitError(count, validateMax, maxNum, validateMin, minNum).None? <==>
      (!validateMax || count <= maxNum) && (!validateMin || count >= minNum)
    ensures LimitError(count, validateMax, maxNum, validateMin, minNum) == Some(TooMany(maxNum)) <==> validateMax && count > maxNum
    ensures LimitError(count, validateMax, maxNum, validateMin, minNum).Some? ==>
      Code(LimitError(count, validateMax, maxNum, validateMin, minNum).value) in {"too_many_forms", "too_few_forms"}
  {
  }

  predicate Takes(forms: seq<SubForm>, canDelete: bool, k: int)
  {
    0 <= k < |forms| && !(canDelete && forms[k].deleted)
  }

  /** Form `j` repeats the text of an earlier form `i` that had cleaned
      data, and is not all None. */
  predicate DupPair(forms: seq<SubForm>, canDelete: bool, i: int, j: int)
  {
    0 <= i < j && Takes(forms, canDelete, i) && Takes(forms, canDelete, j) &&
    |forms[i].values| > 0 && forms[j].text == forms[i].text && !AllNone(forms[j].values)
  }

  predicate HasDuplicate(forms: seq<SubForm>, canDelete: bool)
  {
    exists i, j :: 0 <= i < j < |forms| && DupPair(forms, canDelete, i, j)
  }

  /** Some form taking part has errors. */
  predicate AnyErrors(forms: seq<SubForm>, canDelete: bool)
  {
    exists k :: 0 <= k < |forms| && Takes(forms, canDelete, k) && forms[k].hasErrors
  }

  /** The error flags hold a `True` exactly when some form taking part has
      errors. */
  lemma {:induction false} ErrorFlagsAny(forms: seq<SubForm>, canDelete: bool)
    ensures (exists i :: 0 <= i < |ErrorFlags(forms, canDelete)| && ErrorFlags(forms, canDelete)[i]) <==> AnyErrors(forms, canDelete)
  {
    var k := Kept(forms, canDelete);
    var e := ErrorFlags(forms, canDelete);
    if exists i :: 0 <= i < |e| && e[i] {
      var i :| 0 <= i < |e| && e[i];
      assert k[i] in k;
      var j :| 0 <= j < |forms| && forms[j] == k[i];
      assert Takes(forms, canDelete, j) && forms[j].hasErrors;
    }
    if AnyErrors(forms, canDelete) {
      var j :| 0 <= j < |forms| && Takes(forms, canDelete, j) && forms[j].hasErrors;
      assert forms[j] in forms && KeepFn(canDelete)(forms[j]);
      assert forms[j] in k;
      var i :| 0 <= i < |k| && k[i] == forms[j];
      assert e[i];
    }
  }

  /** save_existing: an existing row whose values are all None is deleted,
      any other is saved. */
  datatype SaveAction = SaveRow | DeleteRow

  function SaveExisting(f: SubForm): SaveAction
  {
    if AllNone(f.values) then DeleteRow else SaveRow
  }

  /** A row is saved exactly when the row count counts it; rows with no
      value or only None are deleted. */
  lemma SaveExistingCounted(f: SubForm)
    ensures SaveExisting(f) == SaveRow <==> Filled(f)
    ensures f.values == [] ==> SaveExisting(f) == DeleteRow
  {
  }

  /** A form marked for deletion never changes the row count. */
  lemma DeletedNeverCounted(forms: seq<SubForm>, i: nat)
    requires i < |forms| && forms[i].deleted
    ensures FilledCount(forms, true) == FilledCount(forms[..i] + forms[i + 1..], true)
  {
    var p := KeepFn(true);
    assert forms == forms[..i] + ([forms[i]] + forms[i + 1..]);
    FilterConcat(forms[..i], [forms[i]] + forms[i + 1..], p);
    FilterCons(forms[i], forms[i + 1..], p);
    FilterConcat(forms[..i], forms[i + 1..], p);
    assert Kept(forms, true) == Kept(forms[..i] + forms[i + 1..], true);
  }

  /** Two forms taking part with the same text, the later one not all None,
      and the earlier with cleaned data, make `clean` reject the formset
      unless some form has errors of its own. */
  lemma DuplicateRejected(forms: seq<SubForm>, canDelete: bool, i: int, j: int)
    requires DupPair(forms, canDelete, i, j) && !AnyErrors(forms, canDelete)
    ensures CleanError(forms, canDelete) == Some(DuplicateForms)
  {
  }

  /** The formset-wide check of `clean`. */
  function CleanError(forms: seq<SubForm>, canDelete: bool): Option<FormsetError>
  {
    if AnyErrors(forms, canDelete) then None
    else if HasDuplicate(forms, canDelete) then Some(DuplicateForms)
    else None
  }

  /** The non-form errors full_clean leaves. */
  function NonFormErrors(forms: seq<SubForm>, canDelete: bool, validateMax: bool, maxNum: int,
                         validateMin: bool, minNum: int): seq<FormsetError>
  {
    match LimitError(FilledCount(forms, canDelete), validateMax, maxNum, validateMin, minNum)
    case Some(e) => [e]
    case None => (match CleanError(forms, canDelete) case Some(e) => [e] case None => [])
  }

  /** BaseInlineFormSet over its forms. */
  class InlineFormSet {
    const forms: seq<SubForm>
    const canDelete: bool
    const isBound: bool
    const validateMax: bool
    const maxNum: int
    const validateMin: bool
    const minNum: int
    var formErrors: seq<bool>
    var nonFormErrors: seq<FormsetError>

    constructor(forms: seq<SubForm>, canDelete: bool, isBound: bool, validateMax: bool, maxNum: int,
                validateMin: bool, minNum: int)
      ensures this.forms == forms && this.canDelete == canDelete && this.isBound == isBound
      ensures this.validateMax == validateMax && this.maxNum == maxNum
      ensures this.validateMin == validateMin && this.minNum == minNum
      ensures formErrors == [] && nonFormErrors == []
    {
      this.forms := forms;
      this.canDelete := canDelete;
      this.isBound := isBound;
      this.validateMax := validateMax;
      this.maxNum := maxNum;
      this.validateMin := validateMin;
      this.minNum := minNum;
      formErrors := [];
      nonFormErrors := [];
    }

    /** clean: nothing when some collected form has errors; otherwise the
        first form repeating an earlier text is a duplicate. */
    method Clean() returns (r: Option<FormsetError>)
      ensures (exists i :: 0 <= i < |formErrors| && formErrors[i]) ==> r.None?
      ensures !(exists i :: 0 <= i < |formErrors| && formErrors[i]) ==>
        (r == Some(DuplicateForms) <==> HasDuplicate(forms, canDelete)) &&
        (r.None? <==> !HasDuplicate(forms, canDelete))
    {
      var e := 0;
      while e < |formErrors|
        invariant 0 <= e <= |formErrors|
        invariant forall k :: 0 <= k < e ==> !formErrors[k]
      {
        if formErrors[e] {
          return None;
        }
        e := e + 1;
      }
      var seen: seq<string> := [];
      var i := 0;
      while i < |forms|
        invariant 0 <= i <= |forms|
        invariant forall t :: t in seen <==> exists k :: 0 <= k < i && Takes(forms, canDelete, k) && |forms[k].values| > 0 && forms[k].text == t
        invariant forall a, b :: 0 <= a < b < i ==> !DupPair(forms, canDelete, a, b)
      {
        if canDelete && forms[i].deleted {
          i := i + 1;
          continue;
        }
        var text := forms[i].text;
        if text in seen && !AllNone(forms[i].values) {
          var k :| 0 <= k < i && Takes(forms, canDelete, k) && |forms[k].values| > 0 && forms[k].text == text;
          assert DupPair(forms, canDelete, k, i);
          return Some(DuplicateForms);
        }
        if |forms[i].values| > 0 {
          seen := seen + [text];
        }
        i := i + 1;
      }
      r := None;
    }

    /** The counting loop of full_clean: the error flags of the forms
        taking part and the number of filled ones. */
    method CollectForms() returns (flags: seq<bool>, counter: nat)
      ensures flags == ErrorFlags(forms, canDelete)
      ensures counter == FilledCount(forms, canDelete)
    {
      flags := [];
      counter := 0;
      var i := 0;
      while i < |forms|
        invariant 0 <= i <= |forms|
        invariant flags == ErrorFlags(forms[..i], canDelete)
        invariant counter == FilledCount(forms[..i], canDelete)
      {
        CountSnoc(forms, canDelete, i);
        FlagsSnoc(forms, canDelete, i);
        var f := forms[i];
        if !(canDelete && f.deleted) {
          if |f.values| > 0 && !AllNone(f.values) {
            counter := counter + 1;
          }
          flags := flags + [f.hasErrors];
        }
        i := i + 1;
      }
      assert forms[..i] == forms;
    }

    /** full_clean: nothing for an unbound formset; otherwise the per-form
        flags, then the row-count error, else the error of `clean`. */
    method FullClean()
      modifies this
      ensures formErrors == (if isBound then ErrorFlags(forms, canDelete) else [])
      ensures nonFormErrors == (if isBound then NonFormErrors(forms, canDelete, validateMax, maxNum, validateMin, minNum) else [])
    {
      formErrors := [];
      nonFormErrors := [];
      if !isBound {
        return;
      }
      var flags, counter := CollectForms();
      formErrors := flags;
      if validateMax && counter > maxNum {
        nonFormErrors := [TooMany(maxNum)];
        return;
      }
      if validateMin && counter < minNum {
        nonFormErrors := [TooFew(minNum)];
        return;
      }
      ErrorFlagsAny(forms, canDelete);
      var c := Clean();
      if c.Some? {
        nonFormErrors := [c.value];
      }
    }
  }

  /** One more form: the forms taking part, their count and their flags
      grow by that form when it takes part. */
  lemma KeptSnoc(forms: seq<SubForm>, canDelete: bool, i: nat)
    requires i < |forms|
    ensures var f := forms[i];
      Kept(forms[..i + 1], canDelete) == Kept(forms[..i], canDelete) + (if canDelete && f.deleted then [] else [f])
  {
    assert forms[..i + 1] == forms[..i] + [forms[i]];
    FilterSnoc(forms[..i], forms[i], KeepFn(canDelete));
  }

  lemma CountSnoc(forms: seq<SubForm>, canDelete: bool, i: nat)
    requires i < |forms|
    ensures var f := forms[i];
      FilledCount(forms[..i + 1], canDelete) ==
        FilledCount(forms[..i], canDelete) + (if !(canDelete && f.deleted) && Filled(f) then 1 else 0)
  {
    KeptSnoc(forms, canDelete, i);
    if canDelete && forms[i].deleted {
      assert Kept(forms[..i], canDelete) + [] == Kept(forms[..i], canDelete);
    } else {
      FilterSnoc(Kept(forms[..i], canDelete), forms[i], Filled);
    }
  }

  lemma FlagsSnoc(forms: seq<SubForm>, canDelete: bool, i: nat)
    requires i < |forms|
    ensures var f := forms[i];
      ErrorFlags(forms[..i + 1], canDelete) ==
        ErrorFlags(forms[..i], canDelete) + (if canDelete && f.deleted then [] else [f.hasErrors])
  {
    KeptSnoc(forms, canDelete, i);
  }
}

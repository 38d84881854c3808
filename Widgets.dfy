/** The custom widgets: a select whose options carry data attributes, the
    two-part phone number input, the rich-text area and the file-tree
    input. Django's own widget classes stand behind them; what they
    contribute here is a parameter. */
module Widgets {
  import opened Common
  import opened Dicts
  import opened BaseTags

  /** The widget classes a field asks about. */
  datatype WidgetKind = NumberInput | RangeInput | TextInput | OtherWidget

  /** A widget's attribute dict, which widgets and template filters update
      in place. */
  class WidgetAttrs {
    var entries: Entries<AttrValue>

    constructor(entries: Entries<AttrValue>)
      ensures this.entries == entries
    {
      this.entries := entries;
    }
  }

  // ---------------------------------------------------------------------
  // Select.create_option

  /** An option label: plain, or a dict with "label" and "disabled". */
  datatype Label = Plain(text: AttrValue) | LabelDict(fields: Entries<AttrValue>)

  datatype SelectOption = SelectOption(value: string, caption: AttrValue, attrs: Entries<AttrValue>)

  /** The label and whether the option is disabled; a dict without either
      key raises KeyError. */
  function OptionLabel(optLabel: Label): (r: Result<(AttrValue, bool)>)
    ensures optLabel.Plain? ==> r == Ok((optLabel.text, false))
    ensures optLabel.LabelDict? ==>
      (r.Ok? <==> Lookup(optLabel.fields, "label").Some? && Lookup(optLabel.fields, "disabled").Some?)
    ensures optLabel.LabelDict? && r.Ok? ==>
      r.value == (Lookup(optLabel.fields, "label").value, AttrTruthy(Lookup(optLabel.fields, "disabled").value))
  {
    match optLabel
    case Plain(t) => Ok((t, false))
    case LabelDict(d) =>
      var l := Lookup(d, "label");
      var dis := Lookup(d, "disabled");
      if l.None? || dis.None? then Err("KeyError") else Ok((l.value, AttrTruthy(dis.value)))
  }

  /** The data attributes of one option: for each attribute of `data` whose
      mapping has a value other than None for the option, that value. */
  function DataAttrsOf(attrs: Entries<AttrValue>, data: Entries<Entries<AttrValue>>, value: string): Entries<AttrValue>
    decreases |data|
  {
    if data == [] then attrs
    else
      var before := DataAttrsOf(attrs, data[..|data| - 1], value);
      var (name, values) := data[|data| - 1];
      var v := Lookup(values, value);
      if v.Some? && v.value != ANone then Put(before, name, v.value) else before
  }

  /** What the data attribute `k` of an option reads: the mapping's value
      for the option when there is one and it is not None, else what it
      was. */
  function DataAttrRead(attrs: Entries<AttrValue>, data: Entries<Entries<AttrValue>>, value: string, k: string): Option<AttrValue>
  {
    var m := Lookup(data, k);
    if m.Some? && Lookup(m.value, value).Some? && Lookup(m.value, value).value != ANone then Lookup(m.value, value)
    else Lookup(attrs, k)
  }

  lemma {:induction false} DataAttrsLookup(attrs: Entries<AttrValue>, data: Entries<Entries<AttrValue>>, value: string)
    requires DistinctKeys(data)
    ensures forall k :: Lookup(DataAttrsOf(attrs, data, value), k) == DataAttrRead(attrs, data, value, k)
    ensures DistinctKeys(attrs) ==> DistinctKeys(DataAttrsOf(attrs, data, value))
    decreases |data|
  {
    if data != [] {
      var init := data[..|data| - 1];
      var last := data[|data| - 1];
      assert data == init + [last];
      DistinctSnoc(init, last);
      DataAttrsLookup(attrs, init, value);
      var before := DataAttrsOf(attrs, init, value);
      var v := Lookup(last.1, value);
      if v.Some? && v.value != ANone {
        PutFacts(before, last.0, v.value);
      }
      forall k ensures Lookup(DataAttrsOf(attrs, data, value), k) == DataAttrRead(attrs, data, value, k) {
        LookupSnoc(init, last, k);
        LookupKeys(init, k);
      }
    }
  }

  /** `create_option`: Django's option with `selected` set for a selected
      one, `disabled="disabled"` for a disabled label, then the data
      attributes. */
  function CreateOptionOf(value: string, optLabel: Label, selected: bool, data: Option<Entries<Entries<AttrValue>>>): Result<SelectOption>
  {
    var l := OptionLabel(optLabel);
    if l.Err? then Err(l.error)
    else
      var base: Entries<AttrValue> := if selected then [("selected", ABool(true))] else [];
      var a1 := if l.value.1 then Put(base, "disabled", AStr("disabled")) else base;
      var a2 := if data.Some? && data.value != [] then DataAttrsOf(a1, data.value, value) else a1;
      Ok(SelectOption(value, l.value.0, a2))
  }

  /** The option is disabled exactly when its label says so, unless a data
      attribute of that name overrides it; a data attribute is present
      exactly when its mapping has a value other than None for the option. */
  lemma CreateOptionAttrs(value: string, optLabel: Label, selected: bool, data: Option<Entries<Entries<AttrValue>>>)
    requires data.Some? ==> DistinctKeys(data.value)
    requires CreateOptionOf(value, optLabel, selected, data).Ok?
    ensures var o := CreateOptionOf(value, optLabel, selected, data).value;
      DistinctKeys(o.attrs) &&
      (data.None? || "disabled" !in KeySet(data.value) ==>
        (Lookup(o.attrs, "disabled") == Some(AStr("disabled")) <==> OptionLabel(optLabel).value.1)) &&
      (forall k :: data.Some? && Lookup(data.value, k).Some? && k != "disabled" && k != "selected" ==>
        (Lookup(o.attrs, k).Some? <==>
          Lookup(Lookup(data.value, k).value, value).Some? && Lookup(Lookup(data.value, k).value, value).value != ANone))
  {
    var l := OptionLabel(optLabel);
    var base: Entries<AttrValue> := if selected then [("selected", ABool(true))] else [];
    var a1 := if l.value.1 then Put(base, "disabled", AStr("disabled")) else base;
    PutFacts(base, "disabled", AStr("disabled"));
    assert forall k :: k != "selected" ==> Lookup(base, k) == None by {
      if selected {
        assert base[1..] == [];
      }
    }
    assert forall k :: k != "disabled" && k != "selected" ==> Lookup(a1, k) == None;
    if data.Some? && data.value != [] {
      DataAttrsLookup(a1, data.value, value);
      if "disabled" !in KeySet(data.value) {
        LookupKeys(data.value, "disabled");
      }
    }
  }

  /** Select.create_option; the loop adds the data attributes one by one. */
  method CreateOption(value: string, optLabel: Label, selected: bool, data: Option<Entries<Entries<AttrValue>>>)
    returns (r: Result<SelectOption>)
    ensures r == CreateOptionOf(value, optLabel, selected, data)
  {
    var l := OptionLabel(optLabel);
    if l.Err? {
      return Err(l.error);
    }
    var (text, disabled) := l.value;
    var attrs: Entries<AttrValue> := if selected then [("selected", ABool(true))] else [];
    if disabled {
      attrs := Put(attrs, "disabled", AStr("disabled"));
    }
    if data.Some? && data.value != [] {
      var d := data.value;
      ghost var a1 := attrs;
      var i := 0;
      while i < |d|
        invariant 0 <= i <= |d|
        invariant attrs == DataAttrsOf(a1, d[..i], value)
      {
        assert d[..i + 1][..i] == d[..i];
        var (name, values) := d[i];
        var v := Lookup(values, value);
        if v.Some? && v.value != ANone {
          attrs := Put(attrs, name, v.value);
        }
        i := i + 1;
      }
      assert d[..i] == d;
    }
    r := Ok(SelectOption(value, text, attrs));
  }

  // ---------------------------------------------------------------------
  // PhoneNumberPrefixWidget

  /** The field's value: nothing, a "prefix.number" string, or a parsed
      PhoneNumber. */
  datatype PhoneValue = NoValue | Text(s: string) | PhoneNumber(countryCode: int, nationalNumber: int)

  /** The value of one sub-widget. */
  datatype Part = NoPart | PartText(s: string) | PartInt(i: int)

  function TextParts(pieces: seq<string>): (r: seq<Part>)
    ensures |r| == |pieces|
    ensures forall i :: 0 <= i < |r| ==> r[i] == PartText(pieces[i])
    decreases |pieces|
  {
    if pieces == [] then [] else [PartText(pieces[0])] + TextParts(pieces[1..])
  }

  /** `decompress`: a string is split on ".", a complete PhoneNumber gives
      "+<country code>" and the national number, anything else
      `[None, ""]`. */
  function Decompress(value: PhoneValue): (r: seq<Part>)
    ensures value.Text? && value.s != "" ==> r == TextParts(Split(value.s, "."))
    ensures value.PhoneNumber? && value.countryCode != 0 && value.nationalNumber != 0 ==>
      r == [PartText("+" + IntToString(value.countryCode)), PartInt(value.nationalNumber)]
    ensures (value.NoValue? || value == Text("") ||
             (value.PhoneNumber? && (value.countryCode == 0 || value.nationalNumber == 0))) ==>
      r == [NoPart, PartText("")]
  {
    match value
    case Text(s) =>
      if s != "" then TextParts(Split(s, ".")) else [NoPart, PartText("")]
    case PhoneNumber(cc, nn) =>
      if cc != 0 && nn != 0 then [PartText("+" + IntToString(cc)), PartInt(nn)] else [NoPart, PartText("")]
    case NoValue => [NoPart, PartText("")]
  }

  /** `value_from_datadict`: "prefix.number" when both sub-widgets hold
      something, else "". */
  function ValueFromDatadict(prefix: Option<string>, number: Option<string>): (r: string)
    ensures r != "" <==> prefix.Some? && prefix.value != "" && number.Some? && number.value != ""
  {
    if prefix.Some? && prefix.value != "" && number.Some? && number.value != "" then
      prefix.value + "." + number.value
    else ""
  }

  /** A prefix and a number without "." come back from the submitted string. */
  lemma DecompressValueFromDatadict(p: string, n: string)
    requires p != "" && n != ""
    requires '.' !in p && '.' !in n
    ensures Decompress(Text(ValueFromDatadict(Some(p), Some(n)))) == [PartText(p), PartText(n)]
  {
    JoinCons(p, [n], ".");
    assert Join([p, n], ".") == p + "." + n by {
      assert [p, n] == [p] + [n];
    }
    SplitJoin([p, n], '.');
  }

  /** A stored string of two non-empty pieces is submitted back unchanged. */
  lemma ValueFromDatadictDecompress(s: string)
    requires |Split(s, ".")| == 2 && Split(s, ".")[0] != "" && Split(s, ".")[1] != ""
    ensures ValueFromDatadict(Some(Split(s, ".")[0]), Some(Split(s, ".")[1])) == s
    ensures Decompress(Text(s)) == [PartText(Split(s, ".")[0]), PartText(Split(s, ".")[1])]
  {
    var xs := Split(s, ".");
    JoinSplit(s, '.');
    assert xs == [xs[0]] + [xs[1]];
    JoinCons(xs[0], [xs[1]], ".");
    assert |Split("", ".")| == 1;
  }

  // ---------------------------------------------------------------------
  // TincyMCE, FileTree

  const TinyMceDefaults: Entries<AttrValue> :=
    [("cols", AStr("40")), ("rows", AStr("10")), ("data-html-textarea", AStr("1"))]

  /** The text area's attributes: the defaults, overridden key by key by
      the caller's attrs. */
  function TinyMceAttrs(attrs: Option<Entries<AttrValue>>): (r: Entries<AttrValue>)
    requires attrs.Some? ==> DistinctKeys(attrs.value)
    ensures DistinctKeys(r)
    ensures forall k :: (Lookup(r, k) ==
      if attrs.Some? && Lookup(attrs.value, k).Some? then Lookup(attrs.value, k) else Lookup(TinyMceDefaults, k))
    ensures KeySet(TinyMceDefaults) <= KeySet(r)
  {
    assert DistinctKeys(TinyMceDefaults);
    if attrs.Some? && attrs.value != [] then
      UpdateAllLookup(TinyMceDefaults, attrs.value);
      assert forall k :: k in KeySet(TinyMceDefaults) ==> Lookup(UpdateAll(TinyMceDefaults, attrs.value), k).Some? by {
        forall k | k in KeySet(TinyMceDefaults) ensures Lookup(UpdateAll(TinyMceDefaults, attrs.value), k).Some? {
          LookupKeys(TinyMceDefaults, k);
        }
      }
      assert KeySet(TinyMceDefaults) <= KeySet(UpdateAll(TinyMceDefaults, attrs.value)) by {
        forall k | k in KeySet(TinyMceDefaults) ensures k in KeySet(UpdateAll(TinyMceDefaults, attrs.value)) {
          LookupKeys(UpdateAll(TinyMceDefaults, attrs.value), k);
        }
      }
      UpdateAll(TinyMceDefaults, attrs.value)
    else
      assert forall k :: attrs.Some? ==> Lookup(attrs.value, k).None?;
      TinyMceDefaults
  }

  /** FileTree.__init__: a missing or empty attrs becomes a fresh dict;
      otherwise the caller's dict itself receives `readonly=""`. */
  method FileTreeInit(attrs: WidgetAttrs?) returns (a: WidgetAttrs)
    requires attrs != null ==> DistinctKeys(attrs.entries)
    modifies attrs
    ensures attrs != null && old(attrs.entries) != [] ==> a == attrs
    ensures attrs == null || old(attrs.entries) == [] ==> fresh(a)
    ensures attrs != null && old(attrs.entries) == [] ==> attrs.entries == []
    ensures a.entries == Put(if attrs == null then [] else old(attrs.entries), "readonly", AStr(""))
    ensures Lookup(a.entries, "readonly") == Some(AStr(""))
  {
    if attrs == null || attrs.entries == [] {
      a := new WidgetAttrs([]);
    } else {
      a := attrs;
    }
    PutLookup(a.entries, "readonly", AStr(""));
    a.entries := Put(a.entries, "readonly", AStr(""));
  }
}

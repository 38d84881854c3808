/** The form template filters: taking the column class out of a widget's
    attributes, and the inline formsets that belong to a field. */
module FormTags {
  import opened Common
  import opened Dicts
  import BaseTags
  import Widgets

  // ---------------------------------------------------------------------
  // get_col_class

  /** `attrs.get("data-col")` and what `attrs.pop("data-col", None)` leaves:
      the column class is gone and every other attribute is as it was. */
  function TakeColClass<V>(attrs: Entries<V>): (r: (Option<V>, Entries<V>))
    requires DistinctKeys(attrs)
    ensures r.0 == Lookup(attrs, "data-col")
    ensures Lookup(r.1, "data-col") == None
    ensures forall k :: k != "data-col" ==> Lookup(r.1, k) == Lookup(attrs, k)
    ensures KeySet(r.1) == KeySet(attrs) - {"data-col"}
    ensures DistinctKeys(r.1)
  {
    PopLookup(attrs, "data-col");
    (Lookup(attrs, "data-col"), Pop(attrs, "data-col"))
  }

  /** A second call finds no column class and changes nothing more. */
  lemma TakeColClassTwice<V>(attrs: Entries<V>)
    requires DistinctKeys(attrs)
    ensures TakeColClass(TakeColClass(attrs).1) == (None, TakeColClass(attrs).1)
  {
    var rest := TakeColClass(attrs).1;
    PopAbsent(rest, "data-col");
  }

  /** `get_col_class(attrs)`: the filter pops the key from the caller's dict. */
  method GetColClass(attrs: Widgets.WidgetAttrs) returns (r: Option<BaseTags.AttrValue>)
    requires DistinctKeys(attrs.entries)
    modifies attrs
    ensures (r, attrs.entries) == TakeColClass(old(attrs.entries))
  {
    r := Lookup(attrs.entries, "data-col");
    attrs.entries := Pop(attrs.entries, "data-col");
  }

  // ---------------------------------------------------------------------
  // get_formset

  /** `get_formset(formsets, field)`: the formsets paired with the field's
      name, in the order given. */
  function FormsetsFor<F(!new)>(formsets: seq<(string, F)>, name: string): (r: seq<F>)
    ensures |r| <= |formsets|
    ensures forall f :: f in r <==> (name, f) in formsets
    decreases |formsets|
  {
    if formsets == [] then []
    else
      var rest := FormsetsFor(formsets[1..], name);
      assert forall x :: x in formsets <==> x == formsets[0] || x in formsets[1..];
      if formsets[0].0 == name then [formsets[0].1] + rest else rest
  }

  /** The formsets of a longer list are those of its parts, in order. */
  lemma {:induction false} FormsetsForConcat<F(!new)>(a: seq<(string, F)>, b: seq<(string, F)>, name: string)
    ensures FormsetsFor(a + b, name) == FormsetsFor(a, name) + FormsetsFor(b, name)
    decreases |a|
  {
    if a == [] {
      assert a + b == b;
    } else {
      assert (a + b)[0] == a[0] && (a + b)[1..] == a[1..] + b;
      FormsetsForConcat(a[1..], b, name);
    }
  }
}

/** The general template tags and filters: merging option dicts over
    defaults, item lookup, rendering an attribute dict as HTML, sorting a
    class list and stripping whitespace from a phone number. */
module BaseTags {
  import opened Common
  import opened Dicts
  import Utils
  import Sorting

  // ---------------------------------------------------------------------
  // update_from_defaults, get_item

  /** A template value as these tags see it: a dict, or any other Python
      value (a list is `Val(VList(...))`). */
  datatype Arg = Dict(entries: Entries<Utils.Value>) | Val(v: Utils.Value)

  /** A Python dict never holds a key twice. */
  predicate WellFormed(a: Arg)
  {
    a.Dict? ==> DistinctKeys(a.entries)
  }

  /** `{**defaults, **options}` when both are dicts, else None: each key
      reads as in options if there, else as in defaults. */
  function UpdateFromDefaults(defaults: Arg, options: Arg): (r: Option<Entries<Utils.Value>>)
    requires WellFormed(defaults) && WellFormed(options)
    ensures r.Some? <==> defaults.Dict? && options.Dict?
    ensures r.Some? ==> DistinctKeys(r.value)
    ensures r.Some? ==> forall k :: (Lookup(r.value, k) ==
      if Lookup(options.entries, k).Some? then Lookup(options.entries, k) else Lookup(defaults.entries, k))
  {
    if defaults.Dict? && options.Dict? then
      UpdateAllLookup(defaults.entries, options.entries);
      Some(UpdateAll(defaults.entries, options.entries))
    else None
  }

  /** The key a template passes to `get_item`. */
  datatype Key = KStr(s: string) | KInt(i: int)

  /** `item.get(key)` on a dict, `item[key]` on a list (IndexError out of
      range, TypeError for a str index), None for anything else. Dict keys
      are strings here, so an int key is absent from a dict. */
  function GetItem(item: Arg, key: Key): (r: Result<Option<Utils.Value>>)
    ensures item.Dict? ==> r == Ok(if key.KStr? then Lookup(item.entries, key.s) else None)
    ensures item.Val? && item.v.VList? && key.KInt? ==>
      (r.Ok? <==> -|item.v.items| <= key.i < |item.v.items|)
    ensures item.Val? && item.v.VList? && key.KInt? && r.Ok? ==>
      r.value == Some(item.v.items[if key.i < 0 then |item.v.items| + key.i else key.i])
    ensures item.Val? && item.v.VList? && key.KStr? ==> r == Err("TypeError")
    ensures item.Val? && !item.v.VList? ==> r == Ok(None)
  {
    match item
    case Dict(d) => Ok(if key.KStr? then Lookup(d, key.s) else None)
    case Val(v) =>
      if !v.VList? then Ok(None)
      else if key.KStr? then Err("TypeError")
      else
        var x := PyIndex(v.items, key.i);
        if x.None? then Err("IndexError") else Ok(Some(x.value))
  }

  // ---------------------------------------------------------------------
  // attrs

  /** The values an attribute dict holds. */
  datatype AttrValue = ABool(b: bool) | AStr(s: string) | AInt(i: int) | ANone

  /** `stringformat(value, "s")`, i.e. `str(value)`. */
  function StrOf(v: AttrValue): string
  {
    match v
    case ABool(b) => if b then "True" else "False"
    case AStr(s) => s
    case AInt(i) => IntToString(i)
    case ANone => "None"
  }

  /** Python truthiness of an attribute value. */
  predicate AttrTruthy(v: AttrValue)
  {
    match v
    case ABool(b) => b
    case AStr(s) => s != ""
    case AInt(i) => i != 0
    case ANone => false
  }

  /** django.utils.html.escape, one character at a time. */
  function EscapeChar(c: char): string
  {
    if c == '&' then "&amp;"
    else if c == '<' then "&lt;"
    else if c == '>' then "&gt;"
    else if c == '"' then "&quot;"
    else if c == '\'' then "&#39;"
    else [c]
  }

  function Escape(s: string): string
    decreases |s|
  {
    if s == [] then [] else EscapeChar(s[0]) + Escape(s[1..])
  }

  /** Reads the five entities back; any other text is kept. */
  function Unescape(e: string): string
    decreases |e|
  {
    if e == [] then []
    else if StartsWith(e, "&amp;") then "&" + Unescape(e[5..])
    else if StartsWith(e, "&lt;") then "<" + Unescape(e[4..])
    else if StartsWith(e, "&gt;") then ">" + Unescape(e[4..])
    else if StartsWith(e, "&quot;") then "\"" + Unescape(e[6..])
    else if StartsWith(e, "&#39;") then "'" + Unescape(e[5..])
    else [e[0]] + Unescape(e[1..])
  }

  predicate IsHtmlSpecial(c: char)
  {
    c == '<' || c == '>' || c == '"' || c == '\''
  }

  /** Escaped text holds no markup or quote character, so an attribute
      value cannot end its quotes early. */
  lemma {:induction false} EscapeSafe(s: string)
    ensures forall i :: 0 <= i < |Escape(s)| ==> !IsHtmlSpecial(Escape(s)[i])
    decreases |s|
  {
    if s != [] {
      EscapeSafe(s[1..]);
      var h := EscapeChar(s[0]);
      assert forall i :: 0 <= i < |h| ==> !IsHtmlSpecial(h[i]);
      assert Escape(s) == h + Escape(s[1..]);
      forall i | 0 <= i < |Escape(s)| ensures !IsHtmlSpecial(Escape(s)[i]) {
        if i >= |h| {
          assert Escape(s)[i] == Escape(s[1..])[i - |h|];
        }
      }
    }
  }

  /** Text that begins with one of the five entities. */
  predicate EntityAt(t: string)
  {
    StartsWith(t, "&amp;") || StartsWith(t, "&lt;") || StartsWith(t, "&gt;")
    || StartsWith(t, "&quot;") || StartsWith(t, "&#39;")
  }

  /** Every ampersand left in escaped text begins one of the five
      entities: no bare `&` survives. */
  lemma {:induction false} EscapeAmpersands(s: string)
    ensures forall i :: 0 <= i < |Escape(s)| && Escape(s)[i] == '&' ==> EntityAt(Escape(s)[i..])
    decreases |s|
  {
    if s != [] {
      EscapeAmpersands(s[1..]);
      var h, t := EscapeChar(s[0]), Escape(s[1..]);
      assert Escape(s) == h + t;
      forall i | 0 <= i < |h + t| && (h + t)[i] == '&' ensures EntityAt((h + t)[i..]) {
        if i >= |h| {
          assert (h + t)[i..] == t[i - |h|..];
        } else if s[0] == '&' || IsHtmlSpecial(s[0]) {
          assert (h + t)[..|h|] == h;
        }
      }
    }
  }

  lemma UnescapeChar(c: char, t: string)
    ensures Unescape(EscapeChar(c) + t) == [c] + Unescape(t)
  {
    var e := EscapeChar(c) + t;
    if c == '&' {
      assert e[..5] == "&amp;" && e[5..] == t;
    } else if c == '<' {
      assert e[1] == 'l';
      assert !StartsWith(e, "&amp;");
      assert e[..4] == "&lt;" && e[4..] == t;
    } else if c == '>' {
      assert e[1] == 'g';
      assert !StartsWith(e, "&amp;") && !StartsWith(e, "&lt;");
      assert e[..4] == "&gt;" && e[4..] == t;
    } else if c == '"' {
      assert e[1] == 'q';
      assert !StartsWith(e, "&amp;") && !StartsWith(e, "&lt;") && !StartsWith(e, "&gt;");
      assert e[..6] == "&quot;" && e[6..] == t;
    } else if c == '\'' {
      assert e[1] == '#';
      assert !StartsWith(e, "&amp;") && !StartsWith(e, "&lt;") && !StartsWith(e, "&gt;");
      assert !StartsWith(e, "&quot;");
      assert e[..5] == "&#39;" && e[5..] == t;
    } else {
      assert e[0] == c && e[1..] == t;
      assert e[0] != '&';
      assert !StartsWith(e, "&amp;") && !StartsWith(e, "&lt;") && !StartsWith(e, "&gt;");
      assert !StartsWith(e, "&quot;") && !StartsWith(e, "&#39;");
    }
  }

  /** Escaping loses nothing: the text reads back. */
  lemma {:induction false} UnescapeEscape(s: string)
    ensures Unescape(Escape(s)) == s
    decreases |s|
  {
    if s != [] {
      UnescapeEscape(s[1..]);
      UnescapeChar(s[0], Escape(s[1..]));
      assert [s[0]] + s[1..] == s;
    }
  }

  /** The quote character `quotes` names; None where the source leaves
      `quote` unassigned. */
  function QuoteOf(quotes: string): Option<string>
  {
    if quotes == "single" then Some("'")
    else if quotes == "double" then Some("\"")
    else None
  }

  /** An entry that is rendered: not False and not the "class" key. */
  predicate Shown(e: (string, AttrValue))
  {
    e.1 != ABool(false) && e.0 != "class"
  }

  /** One entry of `attrs`: nothing, a bare name for True, else
      `name="value"` with the value escaped; reading the unassigned quote
      raises UnboundLocalError. */
  function AttrText(e: (string, AttrValue), quote: Option<string>): (r: Result<string>)
    ensures !Shown(e) ==> r == Ok("")
    ensures r.Err? <==> Shown(e) && !e.1.ABool? && quote.None?
    ensures Shown(e) && r.Ok? ==> StartsWith(r.value, " " + e.0)
    ensures e.1 == ABool(true) && e.0 != "class" ==> r == Ok(" " + e.0)
    ensures Shown(e) && !e.1.ABool? && quote.Some? ==>
      r == Ok((" " + e.0) + ("=" + quote.value + Escape(StrOf(e.1)) + quote.value))
  {
    if !Shown(e) then Ok("")
    else if e.1 == ABool(true) then Ok(" " + e.0)
    else if quote.None? then Err("UnboundLocalError")
    else
      var q := quote.value;
      assert ((" " + e.0) + ("=" + q + Escape(StrOf(e.1)) + q))[..|" " + e.0|] == " " + e.0;
      Ok((" " + e.0) + ("=" + q + Escape(StrOf(e.1)) + q))
  }

  /** A loop that appends each item's text in turn and stops at the first
      failure. */
  function Joined<E>(d: seq<E>, text: E -> Result<string>): Result<string>
    decreases |d|
  {
    if d == [] then Ok("")
    else
      var h := Joined(d[..|d| - 1], text);
      if h.Err? then h
      else
        var t := text(d[|d| - 1]);
        if t.Err? then t else Ok(h.value + t.value)
  }

  /** Joining two runs of items is joining their outputs. */
  lemma {:induction false} JoinedConcat<E>(a: seq<E>, b: seq<E>, text: E -> Result<string>)
    requires Joined(a, text).Ok? && Joined(b, text).Ok?
    ensures Joined(a + b, text) == Ok(Joined(a, text).value + Joined(b, text).value)
    decreases |b|
  {
    if b == [] {
      assert a + b == a;
      assert Joined(a, text).value + "" == Joined(a, text).value;
    } else {
      var init := b[..|b| - 1];
      var last := b[|b| - 1];
      assert (a + b)[..|a + b| - 1] == a + init;
      assert (a + b)[|a + b| - 1] == last;
      JoinedConcat(a, init, text);
      var x, y, z := Joined(a, text).value, Joined(init, text).value, text(last).value;
      assert (x + y) + z == x + (y + z);
    }
  }

  function TextOf(quote: Option<string>): ((string, AttrValue)) -> Result<string>
  {
    e => AttrText(e, quote)
  }

  /** The loop of `attrs` over a dict's items. */
  function AttrsOf(d: Entries<AttrValue>, quote: Option<string>): Result<string>
  {
    Joined(d, TextOf(quote))
  }

  /** `attrs(attrs_data, quotes)`: "" for a missing or empty dict. */
  function Attrs(data: Option<Entries<AttrValue>>, quotes: string): Result<string>
  {
    if data.None? || data.value == [] then Ok("") else AttrsOf(data.value, QuoteOf(quotes))
  }

  /** The output for a dict grown by one entry. */
  lemma AttrsSnoc(d: Entries<AttrValue>, e: (string, AttrValue), quote: Option<string>)
    ensures AttrsOf(d + [e], quote) ==
      if AttrsOf(d, quote).Err? then AttrsOf(d, quote)
      else if AttrText(e, quote).Err? then AttrText(e, quote)
      else Ok(AttrsOf(d, quote).value + AttrText(e, quote).value)
  {
    assert (d + [e])[..|d + [e]| - 1] == d;
  }

  predicate ShownNonBool(e: (string, AttrValue))
  {
    Shown(e) && !e.1.ABool?
  }

  /** `attrs` fails exactly when the quote style is unknown and some shown
      entry is not a bool. */
  lemma {:induction false} AttrsFails(d: Entries<AttrValue>, quote: Option<string>)
    ensures AttrsOf(d, quote).Err? <==>
      quote.None? && exists i :: 0 <= i < |d| && ShownNonBool(d[i])
    decreases |d|
  {
    if d != [] {
      var init := d[..|d| - 1];
      AttrsFails(init, quote);
      if exists i :: 0 <= i < |init| && ShownNonBool(init[i]) {
        var i :| 0 <= i < |init| && ShownNonBool(init[i]);
        assert d[i] == init[i];
      }
      if exists i :: 0 <= i < |d| && ShownNonBool(d[i]) {
        var i :| 0 <= i < |d| && ShownNonBool(d[i]);
        if i < |init| {
          assert init[i] == d[i];
        }
      }
    }
  }

  /** Entries that are False or named "class" may be dropped beforehand
      without changing the output. */
  lemma {:induction false} AttrsOmits(d: Entries<AttrValue>, quote: Option<string>)
    ensures AttrsOf(d, quote) == AttrsOf(Filter(d, Shown), quote)
    decreases |d|
  {
    if d != [] {
      var init := d[..|d| - 1];
      var last := d[|d| - 1];
      assert d == init + [last];
      AttrsOmits(init, quote);
      FilterSnoc(init, last, Shown);
      var f := Filter(init, Shown);
      AttrsSnoc(init, last, quote);
      if Shown(last) {
        AttrsSnoc(f, last, quote);
      } else {
        assert Filter(d, Shown) == f;
        assert AttrText(last, quote) == Ok("");
        if AttrsOf(init, quote).Ok? {
          assert AttrsOf(init, quote).value + "" == AttrsOf(init, quote).value;
        }
      }
    }
  }

  /** Every entry is rendered on its own: the output for two dicts laid
      end to end is the outputs laid end to end. */
  lemma AttrsConcat(a: Entries<AttrValue>, b: Entries<AttrValue>, quote: Option<string>)
    requires AttrsOf(a, quote).Ok? && AttrsOf(b, quote).Ok?
    ensures AttrsOf(a + b, quote) == Ok(AttrsOf(a, quote).value + AttrsOf(b, quote).value)
  {
    JoinedConcat(a, b, TextOf(quote));
  }

  /** A failure part way stays a failure. */
  lemma {:induction false} AttrsErrStays(d: Entries<AttrValue>, quote: Option<string>, i: nat)
    requires i <= |d| && AttrsOf(d[..i], quote).Err?
    ensures AttrsOf(d, quote) == AttrsOf(d[..i], quote)
    decreases |d| - i
  {
    if i < |d| {
      assert d[..i + 1][..i] == d[..i];
      AttrsErrStays(d, quote, i + 1);
    } else {
      assert d[..i] == d;
    }
  }

  lemma AppendAssoc(a: string, b: string, c: string)
    ensures (a + b) + c == a + (b + c)
  {
  }

  /** The tag itself: `html_attrs` grows entry by entry. */
  method RenderAttrs(data: Option<Entries<AttrValue>>, quotes: string) returns (r: Result<string>)
    ensures r == Attrs(data, quotes)
  {
    if data.None? || data.value == [] {
      return Ok("");
    }
    var d := data.value;
    var quote := QuoteOf(quotes);
    var html := "";
    var i := 0;
    while i < |d|
      invariant 0 <= i <= |d|
      invariant AttrsOf(d[..i], quote) == Ok(html)
    {
      assert d[..i + 1] == d[..i] + [d[i]];
      AttrsSnoc(d[..i], d[i], quote);
      var (name, value) := d[i];
      ghost var before := html;
      if value != ABool(false) && name != "class" {
        html := html + (" " + name);
        if value != ABool(true) {
          if quote.None? {
            AttrsErrStays(d, quote, i + 1);
            return Err("UnboundLocalError");
          }
          html := html + ("=" + quote.value + Escape(StrOf(value)) + quote.value);
          AppendAssoc(before, " " + name, "=" + quote.value + Escape(StrOf(value)) + quote.value);
        }
      } else {
        assert html == before + "";
      }
      i := i + 1;
    }
    assert d[..i] == d;
    r := Ok(html);
  }

  // ---------------------------------------------------------------------
  // classes

  /** Python's `<=` on str. */
  predicate StrLe(a: string, b: string)
  {
    !Utils.StrLt(b, a)
  }

  lemma StrLeOrder()
    ensures Sorting.Total(StrLe) && Sorting.Transitive(StrLe) && Sorting.Antisymmetric(StrLe)
  {
    forall a: string, b: string ensures StrLe(a, b) || StrLe(b, a) {
      Utils.StrLtTotal(a, b);
      if Utils.StrLt(a, b) {
        Utils.StrLtAsymmetric(a, b);
      }
    }
    forall a: string, b: string | StrLe(a, b) && StrLe(b, a) ensures a == b {
      Utils.StrLtTotal(a, b);
    }
    forall a: string, b: string, c: string | StrLe(a, b) && StrLe(b, c) ensures StrLe(a, c) {
      Utils.StrLtTotal(a, b);
      Utils.StrLtTotal(b, c);
      Utils.StrLtIrreflexive(a);
      if a != b && b != c {
        Utils.StrLtTransitive(a, b, c);
        Utils.StrLtAsymmetric(a, c);
      }
    }
  }

  /** The extra classes, split on single spaces; nothing when empty. */
  function Extras(extra: Option<string>): seq<string>
  {
    if extra.Some? && extra.value != "" then Split(extra.value, " ") else []
  }

  /** The list `classes` ends with: the given list and the extras, sorted. */
  function SortedClasses(data: seq<string>, extra: Option<string>): (r: seq<string>)
    ensures Sorting.Sorted(r, StrLe)
    ensures multiset(r) == multiset(data + Extras(extra))
  {
    StrLeOrder();
    Sorting.SortBySorted(data + Extras(extra), StrLe);
    Sorting.SortBy(data + Extras(extra), StrLe)
  }

  /** The output does not depend on the order the classes came in. */
  lemma ClassesOrderFree(a: seq<string>, b: seq<string>, extra: Option<string>)
    requires multiset(a) == multiset(b)
    ensures SortedClasses(a, extra) == SortedClasses(b, extra)
  {
    StrLeOrder();
    Sorting.SortedUnique(SortedClasses(a, extra), SortedClasses(b, extra), StrLe);
  }

  /** A Python list of class names. */
  class ClassList {
    var items: seq<string>

    constructor(items: seq<string>)
      ensures this.items == items
    {
      this.items := items;
    }
  }

  /** `classes(classes_data, extra_classes)`: a missing or empty list is
      replaced by a fresh one; otherwise the caller's list is extended and
      sorted in place. The result joins the sorted list with spaces. */
  method Classes(data: ClassList?, extra: Option<string>) returns (r: string)
    modifies data
    ensures data != null && old(data.items) != [] ==> data.items == SortedClasses(old(data.items), extra)
    ensures data != null && old(data.items) == [] ==> data.items == []
    ensures r == Join(SortedClasses(if data == null then [] else old(data.items), extra), " ")
  {
    var list := data;
    if data == null || data.items == [] {
      list := new ClassList([]);
    }
    if extra.Some? && extra.value != "" {
      list.items := list.items + Split(extra.value, " ");
    } else {
      assert list.items + Extras(extra) == list.items;
    }
    assert list.items == (if data == null then [] else old(data.items)) + Extras(extra);
    list.items := Sorting.SortBy(list.items, StrLe);
    r := Join(list.items, " ");
  }

  // ---------------------------------------------------------------------
  // unformat_phone_number

  function NotSpace(c: char): bool { !IsSpace(c) }

  /** `re.sub(r"\s+", "", number)` */
  function UnformatPhoneNumber(number: string): (r: string)
    ensures forall i :: 0 <= i < |r| ==> !IsSpace(r[i])
    ensures |r| <= |number|
    decreases |number|
  {
    if number == [] then []
    else (if IsSpace(number[0]) then [] else [number[0]]) + UnformatPhoneNumber(number[1..])
  }

  /** The result is the number with its whitespace characters deleted and
      every other character kept in order. */
  lemma {:induction false} UnformatIsFilter(number: string)
    ensures UnformatPhoneNumber(number) == Filter(number, NotSpace)
    decreases |number|
  {
    if number != [] {
      UnformatIsFilter(number[1..]);
    }
  }

  /** A number without whitespace comes back unchanged, so a second pass
      changes nothing. */
  lemma {:induction false} UnformatKeeps(number: string)
    requires forall i :: 0 <= i < |number| ==> !IsSpace(number[i])
    ensures UnformatPhoneNumber(number) == number
    decreases |number|
  {
    if number != [] {
      UnformatKeeps(number[1..]);
      assert [number[0]] + number[1..] == number;
    }
  }

  lemma UnformatIdempotent(number: string)
    ensures UnformatPhoneNumber(UnformatPhoneNumber(number)) == UnformatPhoneNumber(number)
  {
    UnformatKeeps(UnformatPhoneNumber(number));
  }
}

/** The custom form fields: number attributes for number and range
    inputs, the restricted upload field's help text and checks, the file
    tree field's settings and the colour field's pattern. Django's own
    field cleaning runs before these checks; its result is a parameter. */
module Fields {
  import opened Common
  import opened Dicts
  import opened BaseTags
  import Widgets

  // ---------------------------------------------------------------------
  // IntegerField.widget_attrs

  /** `attrs[k] = v` when v is not None. */
  function PutIfSome(d: Entries<AttrValue>, k: string, v: Option<int>): (r: Entries<AttrValue>)
    requires DistinctKeys(d)
    ensures DistinctKeys(r)
    ensures Lookup(r, k) == if v.Some? then Some(AInt(v.value)) else Lookup(d, k)
    ensures forall x :: x != k ==> Lookup(r, x) == Lookup(d, x)
  {
    if v.Some? then
      PutFacts(d, k, AInt(v.value));
      Put(d, k, AInt(v.value))
    else d
  }

  predicate NumberLike(w: Widgets.WidgetKind)
  {
    w.NumberInput? || w.RangeInput?
  }

  /** min, max and step go onto number and range inputs when set; every
      other attribute, and every attribute of any other widget, is left as
      Django's IntegerField gave it. */
  function IntegerWidgetAttrs(base: Entries<AttrValue>, widget: Widgets.WidgetKind,
                              minValue: Option<int>, maxValue: Option<int>, step: Option<int>): (r: Entries<AttrValue>)
    requires DistinctKeys(base)
    ensures DistinctKeys(r)
    ensures Lookup(r, "min") == if NumberLike(widget) && minValue.Some? then Some(AInt(minValue.value)) else Lookup(base, "min")
    ensures Lookup(r, "max") == if NumberLike(widget) && maxValue.Some? then Some(AInt(maxValue.value)) else Lookup(base, "max")
    ensures Lookup(r, "step") == if NumberLike(widget) && step.Some? then Some(AInt(step.value)) else Lookup(base, "step")
    ensures forall k :: k != "min" && k != "max" && k != "step" ==> Lookup(r, k) == Lookup(base, k)
    ensures !NumberLike(widget) ==> r == base
  {
    if NumberLike(widget) then
      PutIfSome(PutIfSome(PutIfSome(base, "min", minValue), "max", maxValue), "step", step)
    else base
  }

  // ---------------------------------------------------------------------
  // RestrictedFileField

  /** `item[1:].upper()` inside `<strong>`: ".pdf" shows as PDF. */
  function Strong(item: string): string
  {
    "<strong>" + Upper(if item == [] then [] else item[1..]) + "</strong>"
  }

  /** The formatted extensions. */
  function Strongs(accept: seq<string>): (r: seq<string>)
    ensures |r| == |accept|
    ensures forall k :: 0 <= k < |r| ==> r[k] == Strong(accept[k])
  {
    seq(|accept|, k requires 0 <= k < |accept| => Strong(accept[k]))
  }

  /** The text the loop adds for the formatted extension at `index`. */
  function Piece(texts: seq<string>, index: nat): string
    requires index < |texts|
  {
    if index + 1 == |texts| then " and " + texts[index]
    else if index == 0 then texts[index]
    else " ," + texts[index]
  }

  /** `accept_text` after the first i extensions. */
  function AcceptText(texts: seq<string>, i: nat): string
    requires i <= |texts|
  {
    if i == 0 then "" else AcceptText(texts, i - 1) + Piece(texts, i - 1)
  }

  predicate NoText(helpText: Option<string>)
  {
    helpText.None? || helpText.value == ""
  }

  /** `get_help_text`: an explicit help text, else one built from the
      accepted extensions. */
  function HelpTextOf(helpText: Option<string>, accept: Option<seq<string>>): (r: Option<string>)
    ensures !NoText(helpText) ==> r == helpText
    ensures accept.None? || accept.value == [] ==> r == helpText
    ensures NoText(helpText) && accept.Some? && |accept.value| == 1 ==>
      r == Some("The allowed format is " + Strong(accept.value[0]) + ".")
  {
    if NoText(helpText) && accept.Some? && accept.value != [] then
      if |accept.value| == 1 then Some("The allowed format is " + Strong(accept.value[0]) + ".")
      else Some("The allowed formats are " + AcceptText(Strongs(accept.value), |accept.value|) + ".")
    else helpText
  }

  /** The texts from lo up to hi, each after " ,". */
  function Middles(texts: seq<string>, lo: nat, hi: nat): string
    requires lo <= hi <= |texts|
    decreases hi - lo
  {
    if lo == hi then "" else " ," + texts[lo] + Middles(texts, lo + 1, hi)
  }

  lemma {:induction false} MiddlesSnoc(texts: seq<string>, lo: nat, hi: nat)
    requires lo <= hi < |texts|
    ensures Middles(texts, lo, hi + 1) == Middles(texts, lo, hi) + (" ," + texts[hi])
    decreases hi - lo
  {
    if lo < hi {
      MiddlesSnoc(texts, lo + 1, hi);
      var h, m, t := " ," + texts[lo], Middles(texts, lo + 1, hi), " ," + texts[hi];
      assert h + (m + t) == (h + m) + t;
    } else {
      assert Middles(texts, lo, hi) == "";
    }
  }

  /** Before the last extension the text is the first one, then the
      middle ones each after " ,". */
  lemma {:induction false} AcceptTextPrefix(texts: seq<string>, i: nat)
    requires 1 <= i < |texts|
    ensures AcceptText(texts, i) == texts[0] + Middles(texts, 1, i)
    decreases i
  {
    if i == 1 {
      assert AcceptText(texts, 0) == "";
      assert Middles(texts, 1, 1) == "";
    } else {
      ghost var a, m, t := texts[0], Middles(texts, 1, i - 1), " ," + texts[i - 1];
      calc {
        AcceptText(texts, i);
        AcceptText(texts, i - 1) + t;
        { AcceptTextPrefix(texts, i - 1); }
        (a + m) + t;
        a + (m + t);
        { MiddlesSnoc(texts, 1, i - 1); }
        a + Middles(texts, 1, i);
      }
    }
  }

  /** With several extensions: the first plain, the middle ones after
      " ,", the last after " and ". */
  lemma AcceptTextShape(texts: seq<string>)
    requires |texts| >= 2
    ensures AcceptText(texts, |texts|) ==
      texts[0] + Middles(texts, 1, |texts| - 1) + (" and " + texts[|texts| - 1])
  {
    ghost var n := |texts|;
    calc {
      AcceptText(texts, n);
      AcceptText(texts, n - 1) + Piece(texts, n - 1);
      AcceptText(texts, n - 1) + (" and " + texts[n - 1]);
      { AcceptTextPrefix(texts, n - 1); }
      texts[0] + Middles(texts, 1, n - 1) + (" and " + texts[n - 1]);
    }
  }

  /** The help text built from several extensions: the first formatted one,
      the middle ones after " ,", the last after " and ". */
  lemma HelpTextShape(accept: seq<string>)
    requires |accept| >= 2
    ensures HelpTextOf(None, Some(accept)) ==
      Some("The allowed formats are " + (Strongs(accept)[0] + Middles(Strongs(accept), 1, |accept| - 1)
        + (" and " + Strongs(accept)[|accept| - 1])) + ".")
  {
    AcceptTextShape(Strongs(accept));
  }

  /** The enumerate loop of `get_help_text` over the formatted extensions:
      the last after " and ", the first plain, the others after " ,". */
  method JoinAcceptText(texts: seq<string>) returns (acceptText: string)
    ensures acceptText == AcceptText(texts, |texts|)
  {
    acceptText := "";
    var index := 0;
    while index < |texts|
      invariant 0 <= index <= |texts|
      invariant acceptText == AcceptText(texts, index)
    {
      var text := texts[index];
      ghost var next := AcceptText(texts, index + 1);
      assert next == acceptText + Piece(texts, index);
      if index + 1 == |texts| {
        acceptText := acceptText + (" and " + text);
      } else if index == 0 {
        acceptText := acceptText + text;
      } else {
        acceptText := acceptText + (" ," + text);
      }
      assert acceptText == next;
      index := index + 1;
    }
  }

  /** `get_help_text`: an explicit help text is kept; one extension reads
      "The allowed format is …", several "The allowed formats are …". */
  method GetHelpText(helpText: Option<string>, accept: Option<seq<string>>) returns (r: Option<string>)
    ensures r == HelpTextOf(helpText, accept)
  {
    if NoText(helpText) && accept.Some? && accept.value != [] {
      var items := accept.value;
      if |items| == 1 {
        return Some("The allowed format is " + Strong(items[0]) + ".");
      }
      var acceptText := JoinAcceptText(Strongs(items));
      return Some("The allowed formats are " + acceptText + ".");
    }
    r := helpText;
  }

  /** Why an upload is refused (both carry the code "invalid"). */
  datatype UploadError = UnsupportedType | TooLarge

  predicate TextSet(s: Option<string>) { s.Some? && s.value != "" }

  predicate NumberSet(n: Option<int>) { n.Some? && n.value != 0 }

  /** RestrictedFileField.clean after Django's own cleaning: the content
      type must be listed, then the size must not exceed the limit. */
  function CheckUpload(contentType: Option<string>, contentTypes: Option<seq<string>>,
                       size: Option<int>, maxUploadSize: Option<int>): (r: Option<UploadError>)
    ensures r == Some(UnsupportedType) <==>
      TextSet(contentType) && contentTypes.Some? && contentTypes.value != [] && contentType.value !in contentTypes.value
    ensures r == Some(TooLarge) <==>
      r != Some(UnsupportedType) && NumberSet(maxUploadSize) && NumberSet(size) && size.value > maxUploadSize.value
    ensures NumberSet(size) && NumberSet(maxUploadSize) && size.value <= maxUploadSize.value ==> r != Some(TooLarge)
  {
    if TextSet(contentType) && contentTypes.Some? && contentTypes.value != [] && contentType.value !in contentTypes.value then
      Some(UnsupportedType)
    else if NumberSet(maxUploadSize) && NumberSet(size) && size.value > maxUploadSize.value then
      Some(TooLarge)
    else None
  }

  /** The file input's attributes: the size limit, and the accepted
      extensions joined by "," when there are any. */
  function UploadAttrs(accept: Option<seq<string>>, maxUploadSize: Option<int>): (r: Entries<AttrValue>)
    ensures DistinctKeys(r)
    ensures Lookup(r, "data-max-size") == Some(if maxUploadSize.Some? then AInt(maxUploadSize.value) else ANone)
    ensures Lookup(r, "accept") ==
      if accept.Some? && accept.value != [] then Some(AStr(Join(accept.value, ","))) else None
  {
    var first: Entries<AttrValue> := [("data-max-size", if maxUploadSize.Some? then AInt(maxUploadSize.value) else ANone)];
    if accept.Some? && accept.value != [] then
      assert DistinctKeys(first);
      PutFacts(first, "accept", AStr(Join(accept.value, ",")));
      Put(first, "accept", AStr(Join(accept.value, ",")))
    else first
  }

  // ---------------------------------------------------------------------
  // FileTreeField

  datatype FileTreeSettings = FileTreeSettings(acceptExtensions: Option<string>, acceptFolder: int)

  /** A lower-case hexadecimal digit. */
  function HexDigit(d: nat): char
    requires d < 16
  {
    "0123456789abcdef"[d]
  }

  /** Four lower-case hexadecimal digits, as in `\u00e9`. */
  function Hex4(n: nat): string
    requires n < 0x1_0000
  {
    [HexDigit(n / 0x1000), HexDigit(n / 0x100 % 16), HexDigit(n / 0x10 % 16), HexDigit(n % 16)]
  }

  function UnicodeEscape(n: nat): string
    requires n < 0x1_0000
  {
    "\\u" + Hex4(n)
  }

  /** One character as `json.dumps` writes it with `ensure_ascii`: the
      quote, the backslash and five control characters by name, other
      control characters, DEL and every non-ASCII character as `\uXXXX`, a
      character beyond the basic plane as its surrogate pair. */
  function JsonChar(c: char): string
  {
    var n := c as int;
    if c == '"' then "\\\""
    else if c == '\\' then "\\\\"
    else if c == '\n' then "\\n"
    else if c == '\r' then "\\r"
    else if c == '\t' then "\\t"
    else if n == 8 then "\\b"
    else if n == 12 then "\\f"
    else if n < 0x20 then UnicodeEscape(n)
    else if n < 0x7F then [c]
    else if n < 0x1_0000 then UnicodeEscape(n)
    else
      var m := n - 0x1_0000;
      UnicodeEscape(0xD800 + m / 0x400 % 0x400) + UnicodeEscape(0xDC00 + m % 0x400)
  }

  predicate Printable(s: string)
  {
    forall k :: 0 <= k < |s| ==> 0x20 <= s[k] as int < 0x7F
  }

  lemma UnicodeEscapePrintable(n: nat)
    requires n < 0x1_0000
    ensures Printable(UnicodeEscape(n))
  {
    forall d: nat | d < 16 ensures 0x20 <= HexDigit(d) as int < 0x7F {
    }
    var h := Hex4(n);
    assert UnicodeEscape(n) == ['\\', 'u', h[0], h[1], h[2], h[3]];
  }

  lemma PrintableConcat(a: string, b: string)
    requires Printable(a) && Printable(b)
    ensures Printable(a + b)
  {
    assert forall k :: |a| <= k < |a + b| ==> (a + b)[k] == b[k - |a|];
  }

  /** Every character written is printable ASCII. */
  lemma JsonCharPrintable(c: char)
    ensures Printable(JsonChar(c))
  {
    var n := c as int;
    if c == '"' || c == '\\' || c == '\n' || c == '\r' || c == '\t' || n == 8 || n == 12 {
    } else if n < 0x20 || 0x7F <= n < 0x1_0000 {
      UnicodeEscapePrintable(n);
    } else if n >= 0x1_0000 {
      var m := n - 0x1_0000;
      UnicodeEscapePrintable(0xD800 + m / 0x400 % 0x400);
      UnicodeEscapePrintable(0xDC00 + m % 0x400);
      PrintableConcat(UnicodeEscape(0xD800 + m / 0x400 % 0x400), UnicodeEscape(0xDC00 + m % 0x400));
    }
  }

  function JsonEscape(s: string): string
    decreases |s|
  {
    if s == [] then [] else JsonChar(s[0]) + JsonEscape(s[1..])
  }

  /** `ensure_ascii`: the escaped text is printable ASCII whatever the
      input. */
  lemma {:induction false} JsonEscapePrintable(s: string)
    ensures Printable(JsonEscape(s))
    decreases |s|
  {
    if s != [] {
      JsonCharPrintable(s[0]);
      JsonEscapePrintable(s[1..]);
      PrintableConcat(JsonChar(s[0]), JsonEscape(s[1..]));
    }
  }

  function JsonStrings(xs: seq<string>): seq<string>
    decreases |xs|
  {
    if xs == [] then [] else ["\"" + JsonEscape(xs[0]) + "\""] + JsonStrings(xs[1..])
  }

  /** `json.dumps` of a list of strings. */
  function JsonList(xs: seq<string>): string
  {
    "[" + Join(JsonStrings(xs), ", ") + "]"
  }

  /** `accept_extensions and json.dumps(...) or False` and
      `accept_folder and 1 or 0`. */
  function FileTreeInit(acceptExtensions: Option<seq<string>>, acceptFolder: bool): (r: FileTreeSettings)
    ensures r.acceptExtensions.Some? <==> acceptExtensions.Some? && acceptExtensions.value != []
    ensures r.acceptExtensions.Some? ==> StartsWith(r.acceptExtensions.value, "[") && EndsWith(r.acceptExtensions.value, "]")
    ensures r.acceptFolder == 1 <==> acceptFolder
    ensures r.acceptFolder == 0 || r.acceptFolder == 1
  {
    var folder := if acceptFolder then 1 else 0;
    if acceptExtensions.Some? && acceptExtensions.value != [] then
      var j := Join(JsonStrings(acceptExtensions.value), ", ");
      assert ("[" + j + "]")[..1] == "[";
      assert ("[" + j + "]")[|"[" + j + "]"| - 1..] == "]";
      FileTreeSettings(Some(JsonList(acceptExtensions.value)), folder)
    else FileTreeSettings(None, folder)
  }

  // ---------------------------------------------------------------------
  // ColorField

  predicate IsHex(c: char)
  {
    '0' <= c <= '9' || 'a' <= c <= 'f' || 'A' <= c <= 'F'
  }

  /** `n` hex digits from position i. */
  predicate HexRun(s: string, i: nat, n: nat)
  {
    i + n <= |s| && forall k :: i <= k < i + n ==> IsHex(s[k])
  }

  /** Python's `$`: the end, or just before a final newline. */
  predicate AtEnd(s: string, i: nat)
  {
    i == |s| || (i + 1 == |s| && s[i] == '\n')
  }

  /** `re.match('^#([A-Fa-f0-9]{6}|[A-Fa-f0-9]{3})$', data)`: the first
      branch is tried before the second. */
  predicate ColorPattern(s: string)
  {
    |s| >= 1 && s[0] == '#' && ((HexRun(s, 1, 6) && AtEnd(s, 7)) || (HexRun(s, 1, 3) && AtEnd(s, 4)))
  }

  /** ColorField.clean on the value Django's CharField returned. */
  function ColorClean(data: string): (r: Result<string>)
    ensures r.Ok? ==> r.value == data
    ensures r.Err? ==> r.error == "invalid"
  {
    if ColorPattern(data) then Ok(data) else Err("invalid")
  }

  predicate AllHex(h: string)
  {
    forall k :: 0 <= k < |h| ==> IsHex(h[k])
  }

  /** Without a final newline (CharField strips it by default) the field
      takes exactly "#" and three or six hex digits of either case. */
  lemma ColorCleanAccepts(data: string)
    requires data == [] || data[|data| - 1] != '\n'
    ensures ColorClean(data).Ok? <==>
      |data| >= 1 && data[0] == '#' && (|data| == 4 || |data| == 7) && AllHex(data[1..])
  {
    if |data| >= 1 && data[0] == '#' && (|data| == 4 || |data| == 7) && AllHex(data[1..]) {
      assert forall k :: 1 <= k < |data| ==> IsHex(data[k]) by {
        forall k | 1 <= k < |data| ensures IsHex(data[k]) {
          assert data[1..][k - 1] == data[k];
        }
      }
    }
    if ColorClean(data).Ok? {
      var n := if HexRun(data, 1, 6) && AtEnd(data, 7) then 6 else 3;
      assert |data| == n + 1;
      forall k | 0 <= k < |data[1..]| ensures IsHex(data[1..][k]) {
        assert data[1..][k] == data[k + 1];
      }
    }
  }

  /** The empty value of a blank optional field does not match either. */
  lemma ColorCleanRejectsBlank()
    ensures ColorClean("") == Err("invalid")
  {
  }

  /** `$` admits one final newline: "#fff\n" passes the pattern itself. */
  lemma ColorPatternTrailingNewline()
    ensures ColorClean("#fff\n") == Ok("#fff\n")
  {
    var s := "#fff\n";
    assert HexRun(s, 1, 3);
    assert AtEnd(s, 4);
  }
}

/** The per-column search of the data tables. A search entered for a
    column whose name is listed as regex-enabled is read as a small
    language: `!` (empty), `*` (not empty), `[a,b]` / `![a,b]` (member of /
    not member of), `[m-n]` (an inclusive number range) and globs with `*`
    and `?`, optionally negated with a leading `!`. Other columns use one
    Django lookup (icontains unless configured). In list mode the search
    is a lower-cased substring test. */
module DataTableSearch {
  import opened Common
  import opened Utils
  import opened DataTableRecords

  // ---------------------------------------------------------------------
  // Tokens

  datatype Token =
    | Blank                                   // "!"
    | Present                                 // "*"
    | Members(items: seq<Cell>, negated: bool) // "[..]" and "![..]"
    | NoFilter                                // a bracket form yielding no list
    | Glob(pattern: string, negated: bool)    // anything else

  /** list(range(m, n + 1)) */
  function Range(m: int, n: int): (r: seq<Cell>)
    ensures |r| == if m <= n then n - m + 1 else 0
    ensures forall k :: 0 <= k < |r| ==> r[k] == Int(m + k)
  {
    if m <= n then seq(n - m + 1, k requires 0 <= k < n - m + 1 => Int(m + k)) else []
  }

  function StrCells(xs: seq<string>): (r: seq<Cell>)
    ensures |r| == |xs| && forall k :: 0 <= k < |xs| ==> r[k] == Str(xs[k])
  {
    seq(|xs|, k requires 0 <= k < |xs| => Str(xs[k]))
  }

  predicate IsBracketForm(s: string)
  {
    (StartsWith(s, "![") || StartsWith(s, "[")) && EndsWith(s, "]")
  }

  /** The inside of a bracket form (spaces already removed). */
  function BracketToken(inner: string, negated: bool): Token
  {
    if '-' in inner then
      var bounds := Split(inner, "-");
      if |bounds| == 2 && IsDigits(bounds[0]) && IsDigits(bounds[1]) then
        var items := Range(ParseNat(bounds[0]), ParseNat(bounds[1]));
        if items != [] then Members(items, negated) else NoFilter
      else NoFilter
    else Members(StrCells(Split(inner, ",")), negated)
  }

  /** The reading of a regex-enabled search (get_filtered_regex_field). */
  function ParseToken(search: string): Token
  {
    var s := Strip(search);
    if s == "!" then Blank
    else if s == "*" then Present
    else if IsBracketForm(s) then
      var t := RemoveChar(s, ' ');
      var offset := if StartsWith(t, "!") then 2 else 1;
      BracketToken(PySlice(t, offset, -1), offset == 2)
    else if StartsWith(s, "!") then Glob(RemoveChar(s, '!'), true)
    else Glob(s, false)
  }

  // ---------------------------------------------------------------------
  // From glob to regex

  /** The regex string the query receives for a glob. */
  function GlobRegex(pattern: string): string
  {
    "^" + Replace(Replace(ReEscape(pattern), "\\*", ".*"), "\\?", ".") + "$"
  }

  /** The reference translation, one glob character at a time. */
  function GlobUnit(c: char): string
  {
    if c == '*' then ".*" else if c == '?' then "." else EscapeChar(c)
  }

  function Translate(p: string): string
    decreases |p|
  {
    if p == [] then [] else GlobUnit(p[0]) + Translate(p[1..])
  }

  /** After the first replacement: `*` translated, the rest still escaped. */
  function StarUnit(c: char): string
  {
    if c == '*' then ".*" else EscapeChar(c)
  }

  function TranslateStars(p: string): string
    decreases |p|
  {
    if p == [] then [] else StarUnit(p[0]) + TranslateStars(p[1..])
  }

  lemma ReplaceHit(rest: string, pat: string, rep: string)
    requires pat != []
    ensures Replace(pat + rest, pat, rep) == rep + Replace(rest, pat, rep)
  {
    var s := pat + rest;
    assert s[..|pat|] == pat;
    assert s[|pat|..] == rest;
  }

  lemma ReplaceSkip(c: char, rest: string, pat: string, rep: string)
    requires pat != []
    requires !StartsWith([c] + rest, pat)
    ensures Replace([c] + rest, pat, rep) == [c] + Replace(rest, pat, rep)
  {
    var s := [c] + rest;
    assert s[1..] == rest;
    if |s| < |pat| {
      assert |rest| < |pat|;
    }
  }

  lemma {:induction false} ReEscapeHead(s: string)
    requires s != []
    ensures ReEscape(s)[0] == '\\' || !IsSpecial(ReEscape(s)[0])
  {
  }

  lemma {:induction false} TranslateStarsHead(s: string)
    requires s != []
    ensures var t := TranslateStars(s); t[0] == '\\' || t[0] == '.' || !IsSpecial(t[0])
  {
  }

  /** An escaped character other than the one the pattern escapes is
      passed over. */
  lemma EscapedPairSkip(c: char, rest: string, pat: string, rep: string)
    requires |pat| == 2 && pat[0] == '\\' && c != pat[1]
    requires c != '\\' || rest == [] || rest[0] != pat[1]
    ensures Replace(['\\', c] + rest, pat, rep) == ['\\', c] + Replace(rest, pat, rep)
  {
    assert ['\\', c] + rest == ['\\'] + ([c] + rest);
    assert ([c] + rest)[0] == c;
    ReplaceSkip('\\', [c] + rest, pat, rep);
    if rest != [] {
      assert ([c] + rest)[1] == rest[0];
    }
    ReplaceSkip(c, rest, pat, rep);
  }

  lemma PlainSkip(c: char, rest: string, pat: string, rep: string)
    requires pat != [] && c != pat[0]
    ensures Replace([c] + rest, pat, rep) == [c] + Replace(rest, pat, rep)
  {
    assert ([c] + rest)[0] == c;
    ReplaceSkip(c, rest, pat, rep);
  }

  lemma StarsUnitStep(c: char, rest: string)
    requires rest == [] || rest[0] == '\\' || !IsSpecial(rest[0])
    ensures Replace(EscapeChar(c) + rest, "\\*", ".*") == StarUnit(c) + Replace(rest, "\\*", ".*")
  {
    if c == '*' {
      assert EscapeChar(c) == "\\*";
      ReplaceHit(rest, "\\*", ".*");
    } else if IsSpecial(c) {
      assert EscapeChar(c) == ['\\', c] == StarUnit(c);
      assert rest == [] || rest[0] != '*' by {
        assert IsSpecial('*');
      }
      EscapedPairSkip(c, rest, "\\*", ".*");
    } else {
      assert EscapeChar(c) == [c] == StarUnit(c);
      assert c != '\\' by {
        assert IsSpecial('\\');
      }
      PlainSkip(c, rest, "\\*", ".*");
    }
  }

  lemma {:induction false} ReplaceStars(p: string)
    ensures Replace(ReEscape(p), "\\*", ".*") == TranslateStars(p)
    decreases |p|
  {
    if p != [] {
      ReplaceStars(p[1..]);
      assert ReEscape(p) == EscapeChar(p[0]) + ReEscape(p[1..]);
      if p[1..] != [] {
        ReEscapeHead(p[1..]);
      }
      StarsUnitStep(p[0], ReEscape(p[1..]));
    }
  }

  lemma QuestionsStar(rest: string)
    ensures Replace(".*" + rest, "\\?", ".") == ".*" + Replace(rest, "\\?", ".")
  {
    assert ".*" + rest == ['.'] + (['*'] + rest);
    ReplaceSkip('.', ['*'] + rest, "\\?", ".");
    ReplaceSkip('*', rest, "\\?", ".");
    assert ".*" + Replace(rest, "\\?", ".") == ['.'] + (['*'] + Replace(rest, "\\?", "."));
  }

  lemma QuestionsUnitStep(c: char, rest: string)
    requires rest == [] || rest[0] == '\\' || rest[0] == '.' || !IsSpecial(rest[0])
    ensures Replace(StarUnit(c) + rest, "\\?", ".") == GlobUnit(c) + Replace(rest, "\\?", ".")
  {
    if c == '?' {
      assert StarUnit(c) == "\\?";
      ReplaceHit(rest, "\\?", ".");
    } else if c == '*' {
      assert StarUnit(c) == ".*" && GlobUnit(c) == ".*";
      QuestionsStar(rest);
    } else if IsSpecial(c) {
      assert StarUnit(c) == ['\\', c] == GlobUnit(c);
      assert rest == [] || rest[0] != '?' by {
        assert IsSpecial('?');
      }
      EscapedPairSkip(c, rest, "\\?", ".");
    } else {
      assert StarUnit(c) == [c] == GlobUnit(c);
      assert c != '\\' by {
        assert IsSpecial('\\');
      }
      PlainSkip(c, rest, "\\?", ".");
    }
  }

  lemma {:induction false} ReplaceQuestions(p: string)
    ensures Replace(TranslateStars(p), "\\?", ".") == Translate(p)
    decreases |p|
  {
    if p != [] {
      ReplaceQuestions(p[1..]);
      assert TranslateStars(p) == StarUnit(p[0]) + TranslateStars(p[1..]);
      if p[1..] != [] {
        TranslateStarsHead(p[1..]);
      }
      QuestionsUnitStep(p[0], TranslateStars(p[1..]));
    }
  }

  /** The replace chain on the escaped glob is exactly the unit-wise
      translation: `*` becomes `.*`, `?` becomes `.`, every other regex
      metacharacter stays escaped, and the match is anchored. */
  lemma GlobRegexIsTranslation(p: string)
    ensures GlobRegex(p) == "^" + Translate(p) + "$"
  {
    ReplaceStars(p);
    ReplaceQuestions(p);
  }

  // ---------------------------------------------------------------------
  // Glob matching (what the anchored regex accepts)

  predicate GlobMatch(p: string, t: string)
    decreases |p|, |t|
  {
    if p == [] then t == []
    else if p[0] == '*' then GlobMatch(p[1..], t) || (t != [] && GlobMatch(p, t[1..]))
    else if p[0] == '?' then t != [] && GlobMatch(p[1..], t[1..])
    else t != [] && t[0] == p[0] && GlobMatch(p[1..], t[1..])
  }

  /** iregex: the match ignores case. */
  predicate IGlobMatch(p: string, t: string)
  {
    GlobMatch(Lower(p), Lower(t))
  }

  predicate NoWildcard(p: string)
  {
    '*' !in p && '?' !in p
  }

  lemma {:induction false} GlobLiteral(p: string, t: string)
    requires NoWildcard(p)
    ensures GlobMatch(p, t) <==> p == t
    decreases |p|
  {
    if p != [] {
      assert p[0] in p;
      assert NoWildcard(p[1..]) by {
        forall i | 0 <= i < |p[1..]| ensures p[1..][i] != '*' && p[1..][i] != '?' {
          assert p[1..][i] == p[i + 1];
        }
      }
      if t != [] {
        GlobLiteral(p[1..], t[1..]);
        if p == t {
          assert p[1..] == t[1..];
        }
        if t[0] == p[0] && p[1..] == t[1..] {
          assert p == [p[0]] + p[1..] && t == [t[0]] + t[1..];
        }
      }
    }
  }

  lemma {:induction false} GlobStarMatchesAll(t: string)
    ensures GlobMatch("*", t)
    decreases |t|
  {
    if t != [] {
      GlobStarMatchesAll(t[1..]);
    }
  }

  /** `x*` matches exactly the values that start with x. */
  lemma {:induction false} GlobPrefix(x: string, t: string)
    requires NoWildcard(x)
    ensures GlobMatch(x + "*", t) <==> StartsWith(t, x)
    decreases |x|
  {
    if x == [] {
      assert x + "*" == "*";
      GlobStarMatchesAll(t);
    } else {
      var p := x + "*";
      assert p[0] == x[0];
      assert p[1..] == x[1..] + "*";
      assert x[0] in x;
      assert NoWildcard(x[1..]) by {
        forall i | 0 <= i < |x[1..]| ensures x[1..][i] != '*' && x[1..][i] != '?' {
          assert x[1..][i] == x[i + 1];
        }
      }
      if t != [] {
        GlobPrefix(x[1..], t[1..]);
        if StartsWith(t, x) {
          assert t[1..][..|x| - 1] == t[..|x|][1..];
        }
        if t[0] == x[0] && StartsWith(t[1..], x[1..]) {
          assert t[..|x|] == [t[0]] + t[1..][..|x| - 1];
          assert x == [x[0]] + x[1..];
        }
      }
    }
  }

  // ---------------------------------------------------------------------
  // Query mode: what a filter keeps

  /** The text the database compares for a value. */
  function DbText(c: Cell): string
  {
    match c
    case Null => ""
    case Int(i) => IntToString(i)
    case Str(s) => s
    case Bool(b) => if b then "true" else "false"
  }

  /** NULL, "" or whitespace only: the rows `!` keeps. */
  predicate IsBlankValue(c: Cell)
  {
    c == Null || AllSpace(DbText(c))
  }

  predicate InTexts(c: Cell, items: seq<Cell>)
  {
    exists k :: 0 <= k < |items| && DbText(items[k]) == DbText(c)
  }

  /** Whether a token keeps a row whose column value is `c`. An exclusion
      (`exclude(...)`) keeps NULL values. */
  predicate TokenKeeps(t: Token, c: Cell)
  {
    match t
    case Blank => IsBlankValue(c)
    case Present => !IsBlankValue(c)
    case Members(items, negated) =>
      if negated then c == Null || !InTexts(c, items) else c != Null && InTexts(c, items)
    case NoFilter => true
    case Glob(p, negated) =>
      if negated then c == Null || !IGlobMatch(p, DbText(c)) else c != Null && IGlobMatch(p, DbText(c))
  }

  /** The filter one column search stands for. */
  datatype QueryFilter =
    | TokenFilter(path: string, token: Token)
    | BoolFilter(path: string, value: bool)
    | LookupFilter(path: string, lookup: string, text: string)

  /** The lookups a column may be configured with. */
  predicate IsKnownLookup(lookup: string)
  {
    lookup in {"icontains", "contains", "iexact", "exact", "istartswith", "startswith", "iendswith", "endswith"}
  }

  predicate LookupHolds(lookup: string, v: string, text: string)
    requires IsKnownLookup(lookup)
  {
    if lookup == "icontains" then Contains(Lower(v), Lower(text))
    else if lookup == "contains" then Contains(v, text)
    else if lookup == "iexact" then Lower(v) == Lower(text)
    else if lookup == "exact" then v == text
    else if lookup == "istartswith" then StartsWith(Lower(v), Lower(text))
    else if lookup == "startswith" then StartsWith(v, text)
    else if lookup == "iendswith" then EndsWith(Lower(v), Lower(text))
    else EndsWith(v, text)
  }

  predicate QueryKeeps(f: QueryFilter, row: Obj)
  {
    var c := LookupPath(row, f.path);
    match f
    case TokenFilter(_, t) => TokenKeeps(t, c)
    case BoolFilter(_, b) => c == Bool(b)
    case LookupFilter(_, lookup, text) =>
      c != Null && IsKnownLookup(lookup) && LookupHolds(lookup, DbText(c), text)
  }

  /** The search settings of a table: regex-enabled names, the annotation
      suffix, the model's boolean fields and per-column lookups. */
  datatype SearchConfig = SearchConfig(
    regexEnabled: seq<string>,
    suffix: string,
    booleanFields: set<string>,
    searchTypes: map<string, string>)

  /** is_regex_enabled: the annotation suffix is removed before the test. */
  predicate IsRegexEnabled(cfg: SearchConfig, field: string)
  {
    var name := if cfg.suffix == [] then field else Replace(field, cfg.suffix, "");
    name in cfg.regexEnabled
  }

  /** get_search_type */
  function SearchType(cfg: SearchConfig, field: string): string
  {
    if field in cfg.searchTypes && cfg.searchTypes[field] != [] then cfg.searchTypes[field] else "icontains"
  }

  /** get_filtered_regex_field / get_filtered_field for one non-empty search:
      a boolean column needs an integer (ValueError otherwise). */
  function QueryColumnFilter(cfg: SearchConfig, field: string, search: string): (r: Result<QueryFilter>)
    ensures IsRegexEnabled(cfg, field) ==> r == Ok(TokenFilter(field, ParseToken(search)))
    ensures !IsRegexEnabled(cfg, field) && field in cfg.booleanFields ==>
      (r.Ok? <==> ParseInt(Strip(search)).Some?) &&
      (r.Ok? ==> r.value == BoolFilter(field, ParseInt(Strip(search)).value == 1))
    ensures !IsRegexEnabled(cfg, field) && field !in cfg.booleanFields && IsKnownLookup(SearchType(cfg, field)) ==>
      r == Ok(LookupFilter(field, SearchType(cfg, field), Strip(search)))
    ensures r.Err? ==> r.error == "ValueError" || r.error == "FieldError"
  {
    if IsRegexEnabled(cfg, field) then Ok(TokenFilter(field, ParseToken(search)))
    else
      var s := Strip(search);
      if field in cfg.booleanFields then
        match ParseInt(s)
        case Some(n) => Ok(BoolFilter(field, n == 1))
        case None => Err("ValueError")
      else if IsKnownLookup(SearchType(cfg, field)) then Ok(LookupFilter(field, SearchType(cfg, field), s))
      else Err("FieldError")
  }

  // ---------------------------------------------------------------------
  // Properties of the tokens

  /** `!` keeps exactly the blank values and `*` exactly the others. */
  lemma BlankAndPresentComplement(search: string, c: Cell)
    requires Strip(search) == "!"
    ensures ParseToken(search) == Blank
    ensures TokenKeeps(ParseToken(search), c) <==> (c == Null || DbText(c) == "" || AllSpace(DbText(c)))
    ensures TokenKeeps(Present, c) <==> !TokenKeeps(ParseToken(search), c)
  {
  }

  lemma ParsePresent(search: string)
    requires Strip(search) == "*"
    ensures ParseToken(search) == Present
  {
  }

  predicate PlainListItem(x: string)
  {
    ' ' !in x && ',' !in x && '-' !in x && '!' !in x
  }

  /** `[body]`, or `![body]` for the negated form. */
  function BracketText(body: string, negated: bool): string
  {
    (if negated then "![" else "[") + body + "]"
  }

  function ListText(items: seq<string>, negated: bool): string
  {
    BracketText(Join(items, ","), negated)
  }

  lemma {:induction false} JoinHasNo(items: seq<string>, sep: char, c: char)
    requires c != sep
    requires forall k :: 0 <= k < |items| ==> c !in items[k]
    ensures c !in Join(items, [sep])
    decreases |items|
  {
    if |items| > 1 {
      JoinHasNo(items[1..], sep, c);
    }
  }

  lemma {:induction false} RemoveCharAbsent(s: string, c: char)
    requires c !in s
    ensures RemoveChar(s, c) == s
    decreases |s|
  {
    if s != [] {
      assert s[0] in s;
      RemoveCharAbsent(s[1..], c);
      assert [s[0]] + s[1..] == s;
    }
  }

  /** A bracket form without spaces is read from its inside. */
  lemma ParseBracket(body: string, negated: bool)
    requires ' ' !in body
    ensures ParseToken(BracketText(body, negated)) == BracketToken(body, negated)
  {
    var open := if negated then "![" else "[";
    var s := BracketText(body, negated);
    assert s == open + body + "]";
    assert s[0] == open[0];
    assert s[|s| - 1] == ']';
    StripUnchanged(s);
    assert s != "!" && s != "*" by {
      assert |s| >= 2;
    }
    assert s[..|open|] == open;
    assert s[|s| - 1..] == "]";
    assert IsBracketForm(s);
    assert ' ' !in s by {
      forall k | 0 <= k < |s| ensures s[k] != ' ' {
        if |open| <= k < |open| + |body| {
          assert s[k] == body[k - |open|];
        }
      }
    }
    RemoveCharAbsent(s, ' ');
    assert (if StartsWith(s, "!") then 2 else 1) == |open|;
    assert PySlice(s, |open|, -1) == body;
  }

  /** `[a,b,c]` keeps the listed values and `![a,b,c]` excludes them. */
  lemma ParseList(items: seq<string>, negated: bool)
    requires |items| >= 1
    requires forall k :: 0 <= k < |items| ==> PlainListItem(items[k])
    ensures ParseToken(ListText(items, negated)) == Members(StrCells(items), negated)
  {
    var body := Join(items, ",");
    JoinHasNo(items, ',', ' ');
    JoinHasNo(items, ',', '-');
    ParseBracket(body, negated);
    forall k | 0 <= k < |items| ensures ',' !in items[k] {
    }
    SplitJoin(items, ',');
  }

  function RangeText(m: nat, n: nat, negated: bool): string
  {
    BracketText(NatToString(m) + "-" + NatToString(n), negated)
  }

  lemma DigitsHaveNo(s: string, c: char)
    requires IsDigits(s) && !IsDigit(c)
    ensures c !in s
  {
  }

  lemma RangeBounds(m: nat, n: nat)
    ensures var body := NatToString(m) + "-" + NatToString(n);
      ' ' !in body && '-' in body && Split(body, "-") == [NatToString(m), NatToString(n)]
  {
    var a := NatToString(m);
    var b := NatToString(n);
    var body := a + "-" + b;
    DigitsHaveNo(a, '-');
    DigitsHaveNo(b, '-');
    DigitsHaveNo(a, ' ');
    DigitsHaveNo(b, ' ');
    assert body[|a|] == '-';
    SplitPiece(a, '-', b);
    SplitNoSeparator(b, '-');
  }

  lemma BracketRange(m: nat, n: nat, negated: bool)
    ensures var body := NatToString(m) + "-" + NatToString(n);
      BracketToken(body, negated) == if m <= n then Members(Range(m, n), negated) else NoFilter
  {
    RangeBounds(m, n);
    ParseNatToString(m);
    ParseNatToString(n);
    assert IsDigits(NatToString(m)) && IsDigits(NatToString(n));
  }

  /** `[m-n]` keeps m..n inclusive; an empty range filters nothing. */
  lemma ParseRange(m: nat, n: nat, negated: bool)
    ensures m <= n ==> ParseToken(RangeText(m, n, negated)) == Members(Range(m, n), negated)
    ensures m > n ==> ParseToken(RangeText(m, n, negated)) == NoFilter
  {
    var body := NatToString(m) + "-" + NatToString(n);
    RangeBounds(m, n);
    ParseBracket(body, negated);
    BracketRange(m, n, negated);
  }

  /** A dash form with more than one dash applies no filter. */
  lemma ParseTwoDashes(x: string, y: string, z: string)
    requires '-' !in x && '-' !in y
    ensures BracketToken(x + "-" + y + "-" + z, false) == NoFilter
  {
    var inner := x + "-" + y + "-" + z;
    assert inner == x + "-" + (y + "-" + z);
    SplitPiece(x, '-', y + "-" + z);
    SplitPiece(y, '-', z);
    assert inner[|x|] == '-';
  }

  /** A dash form whose start is not all digits applies no filter. */
  lemma ParseNonDigitRange(x: string, y: string)
    requires '-' !in x && '-' !in y && !IsDigits(x)
    ensures BracketToken(x + "-" + y, false) == NoFilter
  {
    SplitPiece(x, '-', y);
    SplitNoSeparator(y, '-');
    assert (x + "-" + y)[|x|] == '-';
  }

  /** A leading `!` negates a glob and every `!` is dropped from it. */
  lemma ParseNegatedGlob(search: string)
    requires StartsWith(Strip(search), "!")
    requires !IsBracketForm(Strip(search)) && Strip(search) != "!"
    ensures ParseToken(search) == Glob(RemoveChar(Strip(search), '!'), true)
    ensures '!' !in ParseToken(search).pattern
  {
  }

  lemma ParsePlainGlob(search: string)
    requires !StartsWith(Strip(search), "!") && !IsBracketForm(Strip(search)) && Strip(search) != "*"
    ensures ParseToken(search) == Glob(Strip(search), false)
  {
  }

  /** For a negated glob, the rows kept are the complement of the rows the
      positive glob keeps. */
  lemma NegatedGlobComplement(p: string, c: Cell)
    ensures TokenKeeps(Glob(p, true), c) <==> !TokenKeeps(Glob(p, false), c)
    ensures TokenKeeps(Members([], false), c) == false
  {
  }

  // ---------------------------------------------------------------------
  // List mode

  /** DataTableListMixin.get_filtered_regex_field on the lower-cased text of
      the value and the lower-cased search. */
  predicate ListRegexKeeps(value: string, search: string)
  {
    if search == "!" then value == []
    else if search == "*" then value != []
    else Contains(value, search)
  }

  /** Both list-mode tests for one column: the dict value as str().lower(). */
  predicate ListKeeps(regex: bool, v: Cell, search: string)
  {
    var text := Lower(CellStr(v));
    var s := Lower(search);
    if regex then ListRegexKeeps(text, s) else Contains(text, s)
  }

  /** In list mode None reads as "none", so `!` never keeps it and `*` does. */
  lemma ListNoneIsNotEmpty()
    ensures !ListKeeps(true, Null, "!")
    ensures ListKeeps(true, Null, "*")
    ensures ListKeeps(false, Null, "No")
  {
    assert Lower("None") == "none";
    assert Lower("*") == "*";
    assert Lower("!") == "!";
    assert Lower("No") == "no";
    assert StartsWith("none", "no");
  }

  /** A search other than `!` and `*` means the same with or without regex. */
  lemma ListRegexAgreesOtherwise(v: Cell, search: string)
    requires Lower(search) != "!" && Lower(search) != "*"
    ensures ListKeeps(true, v, search) == ListKeeps(false, v, search)
  {
  }
}

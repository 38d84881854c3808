/** The helpers of the mal2 utility module: permission test, URL
    normalisation, regex escaping and the operator table used by the
    field-dependency rules. */
module Utils {
  import opened Common

  // ---------------------------------------------------------------------
  // Permissions

  /** all(user.has_perm(p) for p in permissions) */
  function AllHeld(user: set<string>, permissions: seq<string>): (r: bool)
    ensures r <==> forall i :: 0 <= i < |permissions| ==> permissions[i] in user
    decreases |permissions|
  {
    permissions == [] || (permissions[0] in user && AllHeld(user, permissions[1..]))
  }

  /** has_perms: an absent or empty permission list always passes; otherwise
      the user must hold every listed permission. The user is the set of
      permission names it holds. */
  function HasPerms(user: set<string>, permissions: Option<seq<string>>): (r: bool)
    ensures permissions.None? ==> r
    ensures permissions.Some? && permissions.value == [] ==> r
    ensures permissions.Some? ==> (r <==> forall p :: p in permissions.value ==> p in user)
  {
    match permissions
    case None => true
    case Some(ps) => ps == [] || AllHeld(user, ps)
  }

  lemma HasPermsMonotone(user: set<string>, more: set<string>, permissions: Option<seq<string>>)
    requires user <= more
    requires HasPerms(user, permissions)
    ensures HasPerms(more, permissions)
  {
  }

  // ---------------------------------------------------------------------
  // remove_url_protocol

  /** `(.*)$` succeeds on the rest of the url when it holds no line break,
      or only one as its very last character (`$` also matches before a
      final newline). */
  predicate SingleLine(s: string)
  {
    forall i :: 0 <= i < |s| - 1 ==> s[i] != '\n'
  }

  /** re.sub(r"^http(s?):\/\/(.*)$", r"\2", u) */
  function StripScheme(u: string): string
  {
    var n := if StartsWith(u, "http://") then 7 else if StartsWith(u, "https://") then 8 else 0;
    if n > 0 && SingleLine(u[n..]) then u[n..] else u
  }

  /** re.sub(r"(/?)$", r"", u): drops one slash at the end, or one slash
      right before a final newline. */
  function TrimSlash(u: string): string
  {
    if EndsWith(u, "/") then u[..|u| - 1]
    else if EndsWith(u, "/\n") then u[..|u| - 2] + "\n"
    else u
  }

  /** remove_url_protocol */
  function RemoveUrlProtocol(url: string): string
  {
    TrimSlash(StripScheme(Lower(url)))
  }

  lemma RemoveUrlProtocolIsLowerCase(url: string)
    ensures IsLowerCase(RemoveUrlProtocol(url))
  {
    var l := Lower(url);
    var s := StripScheme(l);
    assert IsLowerCase(s);
    var t := TrimSlash(s);
    if EndsWith(s, "/\n") {
      assert s[|s| - 2..] == "/\n";
      assert s[|s| - 1] == '\n';
      assert !EndsWith(s, "/");
      assert t == s[..|s| - 2] + "\n";
      assert forall i :: 0 <= i < |t| - 1 ==> t[i] == s[i];
    }
  }

  lemma LowerIdempotent(s: string)
    requires IsLowerCase(s)
    ensures Lower(s) == s
  {
  }

  lemma LowerPrefix(p: string, u: string)
    requires IsLowerCase(p)
    ensures Lower(p + u) == p + Lower(u)
  {
  }

  lemma StripSchemeHttp(u: string)
    ensures StripScheme("http://" + u) == (if SingleLine(u) then u else "http://" + u)
  {
    var a := "http://" + u;
    assert a[..7] == "http://";
    assert a[7..] == u;
  }

  lemma StripSchemeHttps(u: string)
    ensures StripScheme("https://" + u) == (if SingleLine(u) then u else "https://" + u)
  {
    var b := "https://" + u;
    assert b[..8] == "https://";
    assert b[8..] == u;
    assert !StartsWith(b, "http://") by {
      assert b[4] == 's';
    }
  }

  /** The two schemes normalise to the same key (the scheme is only
      removed when the rest of the url is a single line). */
  lemma SchemesAgree(u: string)
    requires SingleLine(u)
    ensures RemoveUrlProtocol("http://" + u) == RemoveUrlProtocol("https://" + u)
  {
    var l := Lower(u);
    assert SingleLine(l);
    LowerPrefix("http://", u);
    LowerPrefix("https://", u);
    StripSchemeHttp(l);
    StripSchemeHttps(l);
  }

  /** For a single-line, lower-case host part only one scheme is removed
      and at most one trailing slash. */
  lemma RemoveUrlProtocolOfHttps(u: string)
    requires IsLowerCase(u)
    requires '\n' !in u
    ensures RemoveUrlProtocol("https://" + u) == TrimSlash(u)
    ensures TrimSlash(u) == u || TrimSlash(u) + "/" == u
  {
    LowerPrefix("https://", u);
    LowerIdempotent(u);
    StripSchemeHttps(u);
    if EndsWith(u, "/") {
      assert u[..|u| - 1] + "/" == u;
    } else {
      assert !EndsWith(u, "/\n") by {
        if |u| >= 2 {
          assert u[|u| - 1] != '\n';
        }
      }
    }
  }

  lemma RemoveUrlProtocolOnlyOnce()
    ensures RemoveUrlProtocol("http://http://a/") == "http://a"
  {
    var l := "http://http://a/";
    assert Lower(l) == l;
    assert l[..7] == "http://";
    assert l[7..] == "http://a/";
    assert SingleLine(l[7..]);
    assert StripScheme(l) == "http://a/";
    assert "http://a/"[..8] == "http://a";
  }

  // ---------------------------------------------------------------------
  // re_escape

  /** The characters re_escape prefixes with a backslash. */
  predicate IsSpecial(c: char)
  {
    c in "()[]{}?*+-|^$\\.&~# \t\n\r" || c as int == 11 || c as int == 12
  }

  function EscapeChar(c: char): string
  {
    if IsSpecial(c) then ['\\', c] else [c]
  }

  /** re_escape on a str: pattern.translate of the special-character map. */
  function ReEscape(s: string): (r: string)
    ensures |r| == |s| + CountSpecial(s)
    decreases |s|
  {
    if s == [] then [] else EscapeChar(s[0]) + ReEscape(s[1..])
  }

  function CountSpecial(s: string): nat
    decreases |s|
  {
    if s == [] then 0 else (if IsSpecial(s[0]) then 1 else 0) + CountSpecial(s[1..])
  }

  /** Reads an escaped string back: a backslash takes the next character literally. */
  function Unescape(e: string): string
    decreases |e|
  {
    if e == [] then []
    else if e[0] == '\\' && |e| >= 2 then [e[1]] + Unescape(e[2..])
    else [e[0]] + Unescape(e[1..])
  }

  lemma {:induction false} UnescapeReEscape(s: string)
    ensures Unescape(ReEscape(s)) == s
    decreases |s|
  {
    if s != [] {
      UnescapeReEscape(s[1..]);
      var e := ReEscape(s);
      if IsSpecial(s[0]) {
        assert e[0] == '\\' && e[1] == s[0];
        assert e[2..] == ReEscape(s[1..]);
      } else {
        assert s[0] != '\\';
        assert e[1..] == ReEscape(s[1..]);
      }
    }
  }

  lemma ReEscapeGlobChars()
    ensures ReEscape("*") == "\\*"
    ensures ReEscape("?") == "\\?"
  {
  }

  lemma {:induction false} ReEscapeConcat(a: string, b: string)
    ensures ReEscape(a + b) == ReEscape(a) + ReEscape(b)
    decreases |a|
  {
    if a == [] {
      assert a + b == b;
    } else {
      assert (a + b)[0] == a[0];
      assert (a + b)[1..] == a[1..] + b;
      ReEscapeConcat(a[1..], b);
    }
  }

  // ---------------------------------------------------------------------
  // get_truth

  /** The Python values a field-dependency rule compares. Model instances
      carry their primary key. */
  datatype Value =
    | VNone
    | VBool(b: bool)
    | VNum(n: real)
    | VStr(s: string)
    | VList(items: seq<Value>)
    | VObj(pk: int)

  predicate IsNumeric(v: Value) { v.VBool? || v.VNum? }

  function NumOf(v: Value): real
    requires IsNumeric(v)
  {
    if v.VBool? then (if v.b then 1.0 else 0.0) else v.n
  }

  /** Python truthiness. */
  predicate Truthy(v: Value)
  {
    match v
    case VNone => false
    case VBool(b) => b
    case VNum(n) => n != 0.0
    case VStr(s) => s != []
    case VList(xs) => xs != []
    case VObj(_) => true
  }

  /** Python `==` (bool is a number; model instances compare by pk). */
  predicate PyEq(a: Value, b: Value)
    decreases a
  {
    if IsNumeric(a) && IsNumeric(b) then NumOf(a) == NumOf(b)
    else match (a, b)
      case (VNone, VNone) => true
      case (VStr(x), VStr(y)) => x == y
      case (VObj(p), VObj(q)) => p == q
      case (VList(xs), VList(ys)) =>
        |xs| == |ys| && forall i :: 0 <= i < |xs| ==> PyEq(xs[i], ys[i])
      case _ => false
  }

  lemma {:induction false} PyEqReflexive(a: Value)
    ensures PyEq(a, a)
    decreases a
  {
    if a.VList? {
      forall i | 0 <= i < |a.items| ensures PyEq(a.items[i], a.items[i]) {
        PyEqReflexive(a.items[i]);
      }
    }
  }

  lemma {:induction false} PyEqSymmetric(a: Value, b: Value)
    requires PyEq(a, b)
    ensures PyEq(b, a)
    decreases a
  {
    if a.VList? && b.VList? {
      forall i | 0 <= i < |b.items| ensures PyEq(b.items[i], a.items[i]) {
        PyEqSymmetric(a.items[i], b.items[i]);
      }
    }
  }

  /** Lexicographic order on code points: Python's `<` on str. */
  predicate StrLt(a: string, b: string)
    decreases |a|
  {
    if a == [] then b != []
    else if b == [] then false
    else if a[0] != b[0] then a[0] < b[0]
    else StrLt(a[1..], b[1..])
  }

  lemma {:induction false} StrLtIrreflexive(a: string)
    ensures !StrLt(a, a)
    decreases |a|
  {
    if a != [] {
      StrLtIrreflexive(a[1..]);
    }
  }

  lemma {:induction false} StrLtTotal(a: string, b: string)
    ensures StrLt(a, b) || a == b || StrLt(b, a)
    decreases |a|
  {
    if a != [] && b != [] && a[0] == b[0] {
      StrLtTotal(a[1..], b[1..]);
      if a[1..] == b[1..] {
        assert a == [a[0]] + a[1..] && b == [b[0]] + b[1..];
      }
    }
  }

  lemma {:induction false} StrLtAsymmetric(a: string, b: string)
    requires StrLt(a, b)
    ensures !StrLt(b, a)
    decreases |a|
  {
    if a != [] && b != [] && a[0] == b[0] {
      StrLtAsymmetric(a[1..], b[1..]);
    }
  }

  lemma {:induction false} StrLtTransitive(a: string, b: string, c: string)
    requires StrLt(a, b) && StrLt(b, c)
    ensures StrLt(a, c)
    decreases |a|
  {
    if a != [] && b != [] && c != [] && a[0] == b[0] && b[0] == c[0] {
      StrLtTransitive(a[1..], b[1..], c[1..]);
    }
  }

  /** Index of the first position where two lists differ under `==`, or
      the shorter length. */
  function FirstDiff(xs: seq<Value>, ys: seq<Value>): (k: nat)
    ensures k <= |xs| && k <= |ys|
    ensures forall i :: 0 <= i < k ==> PyEq(xs[i], ys[i])
    ensures k < |xs| && k < |ys| ==> !PyEq(xs[k], ys[k])
    decreases |xs|
  {
    if xs == [] || ys == [] || !PyEq(xs[0], ys[0]) then 0
    else 1 + FirstDiff(xs[1..], ys[1..])
  }

  predicate IsOrderOp(op: string) { op == "<" || op == ">" || op == "<=" || op == ">=" }

  function RealCmp(op: string, x: real, y: real): bool
    requires IsOrderOp(op)
  {
    if op == "<" then x < y else if op == ">" then x > y else if op == "<=" then x <= y else x >= y
  }

  function Flip(op: string): (r: string)
    requires IsOrderOp(op)
    ensures IsOrderOp(r)
  {
    if op == "<" then ">" else if op == ">" then "<" else if op == "<=" then ">=" else "<="
  }

  /** Python's ordering operators; unorderable operands raise TypeError. */
  function Compare(op: string, a: Value, b: Value): (r: Result<bool>)
    requires IsOrderOp(op)
    ensures r.Err? ==> r.error == "TypeError"
    decreases a
  {
    if IsNumeric(a) && IsNumeric(b) then Ok(RealCmp(op, NumOf(a), NumOf(b)))
    else match (a, b)
      case (VStr(x), VStr(y)) =>
        Ok(if op == "<" then StrLt(x, y) else if op == ">" then StrLt(y, x)
           else if op == "<=" then !StrLt(y, x) else !StrLt(x, y))
      case (VList(xs), VList(ys)) =>
        var k := FirstDiff(xs, ys);
        if k < |xs| && k < |ys| then Compare(op, xs[k], ys[k])
        else Ok(RealCmp(op, |xs| as real, |ys| as real))
      case _ => Err("TypeError")
  }

  /** operator.contains(a, b), i.e. `b in a`. */
  function PyContains(a: Value, b: Value): (r: Result<bool>)
    ensures a.VList? ==> r == Ok(exists i :: 0 <= i < |a.items| && PyEq(a.items[i], b))
    ensures a.VStr? && b.VStr? ==> r == Ok(Contains(a.s, b.s))
    ensures !a.VList? && !(a.VStr? && b.VStr?) ==> r == Err("TypeError")
  {
    match a
    case VList(xs) => Ok(InList(xs, b))
    case VStr(s) => if b.VStr? then Ok(Contains(s, b.s)) else Err("TypeError")
    case _ => Err("TypeError")
  }

  function InList(xs: seq<Value>, b: Value): (r: bool)
    ensures r <==> exists i :: 0 <= i < |xs| && PyEq(xs[i], b)
    decreases |xs|
  {
    if xs == [] then false
    else if PyEq(xs[0], b) then true
    else
      var r := InList(xs[1..], b);
      assert r <==> exists i :: 1 <= i < |xs| && PyEq(xs[i], b) by {
        if r {
          var j :| 0 <= j < |xs[1..]| && PyEq(xs[1..][j], b);
          assert PyEq(xs[j + 1], b);
        }
        if exists i :: 1 <= i < |xs| && PyEq(xs[i], b) {
          var i :| 1 <= i < |xs| && PyEq(xs[i], b);
          assert PyEq(xs[1..][i - 1], b);
        }
      }
      r
  }

  /** get_truth: the operator table `>`, `<`, `>=`, `<=`, `==`, `in`; any
      other operator name is a missing key. */
  function GetTruth(a: Value, op: string, b: Value): (r: Result<bool>)
    ensures op == "==" ==> r == Ok(PyEq(a, b))
    ensures op == "in" ==> r == PyContains(a, b)
    ensures IsOrderOp(op) ==> r == Compare(op, a, b)
    ensures r.Err? && r.error == "KeyError" <==> !(IsOrderOp(op) || op == "==" || op == "in")
  {
    if IsOrderOp(op) then Compare(op, a, b)
    else if op == "==" then Ok(PyEq(a, b))
    else if op == "in" then PyContains(a, b)
    else Err("KeyError")
  }

  lemma {:induction false} FirstDiffSymmetric(xs: seq<Value>, ys: seq<Value>)
    ensures FirstDiff(xs, ys) == FirstDiff(ys, xs)
    decreases |xs|
  {
    if xs != [] && ys != [] {
      if PyEq(xs[0], ys[0]) {
        PyEqSymmetric(xs[0], ys[0]);
        FirstDiffSymmetric(xs[1..], ys[1..]);
      } else if PyEq(ys[0], xs[0]) {
        PyEqSymmetric(ys[0], xs[0]);
      }
    }
  }

  /** `a > b` is `b < a` (and likewise for the other pairs), for every
      pair of operands, including the TypeError cases. */
  lemma RealCmpFlip(op: string, x: real, y: real)
    requires IsOrderOp(op)
    ensures RealCmp(op, x, y) == RealCmp(Flip(op), y, x)
  {
  }

  lemma CompareFlipStr(op: string, x: string, y: string)
    requires IsOrderOp(op)
    ensures Compare(op, VStr(x), VStr(y)) == Compare(Flip(op), VStr(y), VStr(x))
  {
  }

  lemma CompareFlipUnordered(op: string, a: Value, b: Value)
    requires IsOrderOp(op)
    requires !(IsNumeric(a) && IsNumeric(b)) && !(a.VStr? && b.VStr?) && !(a.VList? && b.VList?)
    ensures Compare(op, a, b) == Err("TypeError") == Compare(Flip(op), b, a)
  {
  }

  lemma {:induction false} CompareFlip(op: string, a: Value, b: Value)
    requires IsOrderOp(op)
    ensures Compare(op, a, b) == Compare(Flip(op), b, a)
    decreases a
  {
    if IsNumeric(a) && IsNumeric(b) {
      RealCmpFlip(op, NumOf(a), NumOf(b));
    } else if a.VStr? && b.VStr? {
      CompareFlipStr(op, a.s, b.s);
    } else if a.VList? && b.VList? {
      FirstDiffSymmetric(a.items, b.items);
      var k := FirstDiff(a.items, b.items);
      if k < |a.items| && k < |b.items| {
        assert Compare(op, a, b) == Compare(op, a.items[k], b.items[k]);
        assert Compare(Flip(op), b, a) == Compare(Flip(op), b.items[k], a.items[k]);
        CompareFlip(op, a.items[k], b.items[k]);
      } else {
        assert Compare(op, a, b) == Ok(RealCmp(op, |a.items| as real, |b.items| as real));
        assert Compare(Flip(op), b, a) == Ok(RealCmp(Flip(op), |b.items| as real, |a.items| as real));
        RealCmpFlip(op, |a.items| as real, |b.items| as real);
      }
    } else {
      CompareFlipUnordered(op, a, b);
    }
  }

  lemma GetTruthFlip(a: Value, b: Value)
    ensures GetTruth(a, ">", b) == GetTruth(b, "<", a)
    ensures GetTruth(a, ">=", b) == GetTruth(b, "<=", a)
  {
    CompareFlip(">", a, b);
    CompareFlip(">=", a, b);
  }

  lemma GetTruthNumbers(x: real, op: string, y: real)
    requires IsOrderOp(op)
    ensures GetTruth(VNum(x), op, VNum(y)) == Ok(RealCmp(op, x, y))
  {
  }
}

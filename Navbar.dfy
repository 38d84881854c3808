/** The navigation bar tag: left-aligned items first, then right-aligned
    ones; items the user may not see, and dropdowns with no visible link,
    are skipped; the first right-aligned item pushes the rest of the bar to
    the right with its margin class. An item is a dict of the settings
    whose `classes` list the tag appends to in place, so it is an object
    here. Template rendering is left out: a rendered item is the context
    the template receives. */
module Navbar {
  import opened Common
  import Utils

  /** The `align` entry of an item: missing, None, or a string. */
  datatype Align = Missing | AlignNone | AlignStr(s: string)

  datatype DropdownItem = DropdownItem(permissions: Option<seq<string>>, divider: bool, href: Option<string>, title: Option<string>)

  datatype Link = Divider | Link(href: string, isActive: bool, title: Option<string>)

  /** The request: the permissions of its user, the user's name and the path. */
  datatype Request = Request(perms: set<string>, username: string, path: string)

  class NavItem {
    const align: Align
    const permissions: Option<seq<string>>
    const title: Option<string>
    const href: Option<string>
    const dropdown: seq<DropdownItem>
    var classes: Option<seq<string>>

    constructor(align: Align, permissions: Option<seq<string>>, title: Option<string>, href: Option<string>,
                dropdown: seq<DropdownItem>, classes: Option<seq<string>>)
      ensures this.align == align && this.permissions == permissions && this.title == title
      ensures this.href == href && this.dropdown == dropdown && this.classes == classes
    {
      this.align := align;
      this.permissions := permissions;
      this.title := title;
      this.href := href;
      this.dropdown := dropdown;
      this.classes := classes;
    }
  }

  /** The context of one rendered item; `classes` are joined with spaces
      by the tag, `margin` is the class it appended. */
  datatype Rendered = Rendered(source: NavItem, title: string, classes: seq<string>, margin: Option<string>,
                               href: string, isActive: bool, isDropdown: bool, links: seq<Link>)

  // ---------------------------------------------------------------------
  // _render_dropdown_menu

  function LinkOf(req: Request, d: DropdownItem): (r: Link)
    ensures d.divider ==> r == Divider
    ensures !d.divider ==> r.Link? && r.href == d.href.GetOr("#") && r.title == d.title
    ensures !d.divider ==> (r.isActive <==> Contains(req.path, d.href.GetOr("#")))
  {
    if d.divider then Divider
    else
      var h := d.href.GetOr("#");
      Link(h, Contains(req.path, h), d.title)
  }

  function PermittedFn(req: Request): DropdownItem -> bool
  {
    (d: DropdownItem) => Utils.HasPerms(req.perms, d.permissions)
  }

  /** The links of a dropdown, built as the loop builds them. */
  function DropdownLinks(req: Request, ds: seq<DropdownItem>): seq<Link>
    decreases |ds|
  {
    if ds == [] then []
    else
      var last := ds[|ds| - 1];
      DropdownLinks(req, ds[..|ds| - 1]) + (if Utils.HasPerms(req.perms, last.permissions) then [LinkOf(req, last)] else [])
  }

  /** The links of a dropdown: one per item the user may see, in order. */
  lemma {:induction false} DropdownLinksPermitted(req: Request, ds: seq<DropdownItem>)
    ensures |DropdownLinks(req, ds)| == |Filter(ds, PermittedFn(req))|
    ensures forall k :: 0 <= k < |DropdownLinks(req, ds)| ==>
      DropdownLinks(req, ds)[k] == LinkOf(req, Filter(ds, PermittedFn(req))[k])
    decreases |ds|
  {
    if ds != [] {
      var init := ds[..|ds| - 1];
      var last := ds[|ds| - 1];
      assert ds == init + [last];
      FilterSnoc(init, last, PermittedFn(req));
      DropdownLinksPermitted(req, init);
    }
  }

  method RenderDropdown(req: Request, ds: seq<DropdownItem>) returns (links: seq<Link>)
    ensures links == DropdownLinks(req, ds)
  {
    links := [];
    var i := 0;
    while i < |ds|
      invariant 0 <= i <= |ds|
      invariant links == DropdownLinks(req, ds[..i])
    {
      assert ds[..i + 1][..i] == ds[..i];
      if Utils.HasPerms(req.perms, ds[i].permissions) {
        links := links + [LinkOf(req, ds[i])];
      }
      i := i + 1;
    }
    assert ds[..i] == ds;
  }

  // ---------------------------------------------------------------------
  // _get_nav_classes

  /** `align == "left"` after `get("align", "left")`. */
  predicate LeftAligned(a: Align)
  {
    a.Missing? || a == AlignStr("left")
  }

  /** The margin class of an item and whether the bar is right-aligned
      from then on. */
  function NavMargin(a: Align, isRight: bool, expand: string): (r: (Option<string>, bool))
    ensures r.1 <==> isRight || a == AlignStr("right")
    ensures r.0 == Some("ml-" + expand + "-auto") <==> a == AlignStr("right") && !isRight
    ensures r.0 == Some("ml-" + expand + "-1") <==> LeftAligned(a) || isRight
    ensures r.0.None? <==> !isRight && !LeftAligned(a) && a != AlignStr("right")
  {
    var value: Option<string> := match a case Missing => Some("left") case AlignNone => None case AlignStr(s) => Some(s);
    assert ("ml-" + expand + "-auto")[|expand| + 4..] == "auto";
    assert ("ml-" + expand + "-1")[|expand| + 4..] == "1";
    if value == Some("left") || isRight then (Some("ml-" + expand + "-1"), isRight)
    else if value == Some("right") && !isRight then (Some("ml-" + expand + "-auto"), true)
    else (None, isRight)
  }

  // ---------------------------------------------------------------------
  // The order of the items

  /** `not item.get("align") or item["align"] == "left"` */
  predicate IsLeft(a: Align)
  {
    a.Missing? || a.AlignNone? || a == AlignStr("") || a == AlignStr("left")
  }

  predicate IsRight(a: Align)
  {
    a == AlignStr("right")
  }

  function LeftFn(): NavItem -> bool
  {
    (n: NavItem) => IsLeft(n.align)
  }

  function RightFn(): NavItem -> bool
  {
    (n: NavItem) => IsRight(n.align)
  }

  /** How the right-hand group is selected: `item["align"]` as written, or
      `item.get("align")`. */
  datatype Lookup = AsWritten | Corrected

  /** The items in rendering order. As written, an item without "align"
      makes `item["align"]` raise KeyError, although the left group takes
      it. */
  function Ordered(navbar: seq<NavItem>, mode: Lookup): (r: Result<seq<NavItem>>)
    ensures r.Ok? ==> forall n :: n in r.value ==> n in navbar
  {
    if mode == AsWritten && exists i :: 0 <= i < |navbar| && navbar[i].align.Missing? then Err("KeyError")
    else Ok(Filter(navbar, LeftFn()) + Filter(navbar, RightFn()))
  }

  /** Left items come first and right items after, each group in its own
      order, and an item with any other alignment is dropped. */
  lemma OrderedGroups(navbar: seq<NavItem>, mode: Lookup)
    ensures Ordered(navbar, mode).Ok? ==>
      Ordered(navbar, mode).value == Filter(navbar, LeftFn()) + Filter(navbar, RightFn())
    ensures Ordered(navbar, mode).Ok? ==>
      forall n :: n in Ordered(navbar, mode).value <==> n in navbar && (IsLeft(n.align) || IsRight(n.align))
    ensures Ordered(navbar, mode).Ok? ==>
      forall a, b :: 0 <= a < b < |Ordered(navbar, mode).value| && IsRight(Ordered(navbar, mode).value[a].align) ==>
        IsRight(Ordered(navbar, mode).value[b].align)
  {
    if Ordered(navbar, mode).Ok? {
      var l := Filter(navbar, LeftFn());
      var r := Filter(navbar, RightFn());
      var o := l + r;
      forall i | 0 <= i < |l| ensures !IsRight(l[i].align) {
        assert l[i] in l;
        assert LeftFn()(l[i]);
      }
      forall a, b | 0 <= a < b < |o| && IsRight(o[a].align) ensures IsRight(o[b].align) {
        assert a >= |l|;
        assert o[b] == r[b - |l|];
        assert r[b - |l|] in r;
        assert RightFn()(r[b - |l|]);
      }
    }
  }

  /** As written, an item without "align" breaks the whole bar; selecting
      with `.get` renders it in the left group. */
  lemma AsWrittenRejectsMissingAlign(navbar: seq<NavItem>, i: nat)
    requires i < |navbar| && navbar[i].align.Missing?
    ensures Ordered(navbar, AsWritten) == Err("KeyError")
    ensures Ordered(navbar, Corrected).Ok? && navbar[i] in Ordered(navbar, Corrected).value
  {
    assert LeftFn()(navbar[i]);
  }

  /** Without a missing "align" both selections agree. */
  lemma CorrectedAgrees(navbar: seq<NavItem>)
    requires forall i :: 0 <= i < |navbar| ==> !navbar[i].align.Missing?
    ensures Ordered(navbar, AsWritten) == Ordered(navbar, Corrected)
  {
  }

  // ---------------------------------------------------------------------
  // _render_nav_links

  /** The state of the render loop: what has been rendered, the classes
      each visited item is left with, and whether the bar is already
      right-aligned. */
  datatype Walk = Walk(rendered: seq<Rendered>, classes: seq<Option<seq<string>>>, isRight: bool)

  /** Whether an item is rendered. */
  predicate Shown(req: Request, n: NavItem)
  {
    Utils.HasPerms(req.perms, n.permissions) && (|DropdownLinks(req, n.dropdown)| > 0 || |n.dropdown| == 0)
  }

  /** One item of the loop; `c` is its `classes` entry when it is reached.
      A permitted item without a title fails on `.replace`. */
  function Step(req: Request, expand: string, w: Walk, n: NavItem, c: Option<seq<string>>): Result<Walk>
  {
    if !Utils.HasPerms(req.perms, n.permissions) then Ok(w.(classes := w.classes + [c]))
    else if n.title.None? then Err("AttributeError")
    else
      var links := DropdownLinks(req, n.dropdown);
      if |links| > 0 || |n.dropdown| == 0 then
        var m := NavMargin(n.align, w.isRight, expand);
        var base := c.GetOr([]);
        var cls := base + (if m.0.Some? then [m.0.value] else []);
        var h := n.href.GetOr("#");
        var item := Rendered(n, Replace(n.title.value, "%USERNAME%", req.username), cls, m.0, h,
                             Contains(req.path, h), |n.dropdown| > 0, links);
        Ok(Walk(w.rendered + [item], w.classes + [if c.Some? then Some(cls) else None], m.1))
      else Ok(w.(classes := w.classes + [c]))
  }

  function Walked(req: Request, expand: string, ns: seq<NavItem>, cs: seq<Option<seq<string>>>): (r: Result<Walk>)
    requires |ns| == |cs|
    ensures r.Ok? ==> |r.value.classes| == |ns|
    decreases |ns|
  {
    if ns == [] then Ok(Walk([], [], false))
    else
      var n := |ns| - 1;
      match Walked(req, expand, ns[..n], cs[..n])
      case Err(e) => Err(e)
      case Ok(w) => Step(req, expand, w, ns[n], cs[n])
  }

  function Sources(rs: seq<Rendered>): seq<NavItem>
  {
    seq(|rs|, k requires 0 <= k < |rs| => rs[k].source)
  }

  predicate RightBefore(rs: seq<Rendered>, k: int)
    requires 0 <= k <= |rs|
  {
    exists j :: 0 <= j < k && IsRight(rs[j].source.align)
  }

  /** The items that are shown, in order. */
  function ShownItems(req: Request, ns: seq<NavItem>): seq<NavItem>
    decreases |ns|
  {
    if ns == [] then []
    else ShownItems(req, ns[..|ns| - 1]) + (if Shown(req, ns[|ns| - 1]) then [ns[|ns| - 1]] else [])
  }

  /** One step of the loop: a visited item adds its classes entry, which
      changes only for a shown item with a classes list; a shown item is
      rendered, with the margin NavMargin gives it, and only a shown item
      moves the bar to the right. */
  lemma StepFacts(req: Request, expand: string, w: Walk, n: NavItem, c: Option<seq<string>>)
    ensures Step(req, expand, w, n, c).Ok? ==>
      var w1 := Step(req, expand, w, n, c).value;
      |w1.classes| == |w.classes| + 1 && w1.classes[..|w.classes|] == w.classes &&
      (w1.classes[|w.classes|] == c || (c.Some? && Shown(req, n) && w1.classes[|w.classes|].Some?)) &&
      (Shown(req, n) ==>
        |w1.rendered| == |w.rendered| + 1 && w1.rendered[..|w.rendered|] == w.rendered &&
        w1.rendered[|w.rendered|].source == n &&
        n.title.Some? &&
        w1.rendered[|w.rendered|].title == Replace(n.title.value, "%USERNAME%", req.username) &&
        w1.rendered[|w.rendered|].margin == NavMargin(n.align, w.isRight, expand).0 &&
        (w1.isRight <==> w.isRight || IsRight(n.align))) &&
      (!Shown(req, n) ==> w1.rendered == w.rendered && w1.isRight == w.isRight)
  {
    if Step(req, expand, w, n, c).Ok? {
      var w1 := Step(req, expand, w, n, c).value;
      assert w1.classes[..|w.classes|] == w.classes;
      if Shown(req, n) {
        assert w1.rendered[..|w.rendered|] == w.rendered;
      }
    }
  }

  /** A title without the `%USERNAME%` token is rendered as written. */
  lemma StepTitleWithoutToken(req: Request, expand: string, w: Walk, n: NavItem, c: Option<seq<string>>)
    requires Step(req, expand, w, n, c).Ok? && Shown(req, n)
    requires n.title.Some? && !Contains(n.title.value, "%USERNAME%")
    ensures var w1 := Step(req, expand, w, n, c).value;
      |w1.rendered| == |w.rendered| + 1 && w1.rendered[|w.rendered|].title == n.title.value
  {
    StepFacts(req, expand, w, n, c);
    ReplaceAbsent(n.title.value, "%USERNAME%", req.username);
  }

  /** The last step of the loop when every earlier one succeeded. */
  lemma WalkedLast(req: Request, expand: string, ns: seq<NavItem>, cs: seq<Option<seq<string>>>)
    requires |ns| == |cs| && ns != [] && Walked(req, expand, ns, cs).Ok?
    ensures Walked(req, expand, ns[..|ns| - 1], cs[..|ns| - 1]).Ok?
    ensures Walked(req, expand, ns, cs) ==
      Step(req, expand, Walked(req, expand, ns[..|ns| - 1], cs[..|ns| - 1]).value, ns[|ns| - 1], cs[|ns| - 1])
  {
  }

  /** A step renders exactly the shown item. */
  lemma StepRendered(req: Request, expand: string, w: Walk, n: NavItem, c: Option<seq<string>>)
    requires Step(req, expand, w, n, c).Ok?
    ensures Shown(req, n) ==> exists x: Rendered :: x.source == n && Step(req, expand, w, n, c).value.rendered == w.rendered + [x]
    ensures !Shown(req, n) ==> Step(req, expand, w, n, c).value.rendered == w.rendered
  {
  }

  lemma SourcesSnoc(rs: seq<Rendered>, x: Rendered)
    ensures Sources(rs + [x]) == Sources(rs) + [x.source]
  {
  }

  /** The rendered items are the shown ones, in order. */
  lemma {:induction false} WalkedSources(req: Request, expand: string, ns: seq<NavItem>, cs: seq<Option<seq<string>>>)
    requires |ns| == |cs|
    ensures Walked(req, expand, ns, cs).Ok? ==> Sources(Walked(req, expand, ns, cs).value.rendered) == ShownItems(req, ns)
    decreases |ns|
  {
    if ns != [] && Walked(req, expand, ns, cs).Ok? {
      var n := |ns| - 1;
      WalkedLast(req, expand, ns, cs);
      WalkedSources(req, expand, ns[..n], cs[..n]);
      var w0 := Walked(req, expand, ns[..n], cs[..n]).value;
      StepRendered(req, expand, w0, ns[n], cs[n]);
      if Shown(req, ns[n]) {
        var x: Rendered :| x.source == ns[n] && Step(req, expand, w0, ns[n], cs[n]).value.rendered == w0.rendered + [x];
        SourcesSnoc(w0.rendered, x);
      }
    }
  }

  /** The bar is right-aligned once a right-aligned item was rendered. */
  lemma {:induction false} WalkedRight(req: Request, expand: string, ns: seq<NavItem>, cs: seq<Option<seq<string>>>)
    requires |ns| == |cs|
    ensures Walked(req, expand, ns, cs).Ok? ==>
      var w := Walked(req, expand, ns, cs).value;
      w.isRight <==> RightBefore(w.rendered, |w.rendered|)
    decreases |ns|
  {
    if ns != [] && Walked(req, expand, ns, cs).Ok? {
      var n := |ns| - 1;
      WalkedLast(req, expand, ns, cs);
      WalkedRight(req, expand, ns[..n], cs[..n]);
      var w0 := Walked(req, expand, ns[..n], cs[..n]).value;
      StepFacts(req, expand, w0, ns[n], cs[n]);
      var rs := Walked(req, expand, ns, cs).value.rendered;
      if Shown(req, ns[n]) {
        var m := |w0.rendered|;
        assert forall j :: 0 <= j < m ==> rs[j] == w0.rendered[j];
        if RightBefore(rs, |rs|) {
          var j :| 0 <= j < |rs| && IsRight(rs[j].source.align);
          assert j < m ==> RightBefore(w0.rendered, m);
        }
        if RightBefore(w0.rendered, m) {
          var j :| 0 <= j < m && IsRight(w0.rendered[j].source.align);
          assert RightBefore(rs, |rs|);
        }
      }
    }
  }

  /** Each visited item keeps its classes entry, which changes only for a
      shown item that has a classes list of its own. */
  /** The classes entries one step leaves: the earlier ones unchanged and
      one more, which differs from `c` only for a shown item with a
      classes list. */
  lemma StepClasses(req: Request, expand: string, w: Walk, n: NavItem, c: Option<seq<string>>)
    requires Step(req, expand, w, n, c).Ok?
    ensures var cl := Step(req, expand, w, n, c).value.classes;
      |cl| == |w.classes| + 1 && (forall k :: 0 <= k < |w.classes| ==> cl[k] == w.classes[k]) &&
      (cl[|w.classes|] == c || (c.Some? && Shown(req, n) && cl[|w.classes|].Some?))
  {
  }

  lemma {:induction false} WalkedClasses(req: Request, expand: string, ns: seq<NavItem>, cs: seq<Option<seq<string>>>)
    requires |ns| == |cs|
    ensures Walked(req, expand, ns, cs).Ok? ==>
      var w := Walked(req, expand, ns, cs).value;
      forall k :: 0 <= k < |ns| ==> w.classes[k] == cs[k] || (cs[k].Some? && Shown(req, ns[k]) && w.classes[k].Some?)
    decreases |ns|
  {
    if ns != [] && Walked(req, expand, ns, cs).Ok? {
      var n := |ns| - 1;
      WalkedLast(req, expand, ns, cs);
      WalkedClasses(req, expand, ns[..n], cs[..n]);
      var w0 := Walked(req, expand, ns[..n], cs[..n]).value;
      StepClasses(req, expand, w0, ns[n], cs[n]);
      var w := Walked(req, expand, ns, cs).value;
      forall k | 0 <= k < n
        ensures w.classes[k] == cs[k] || (cs[k].Some? && Shown(req, ns[k]) && w.classes[k].Some?)
      {
        assert w.classes[k] == w0.classes[k];
        assert cs[..n][k] == cs[k] && ns[..n][k] == ns[k];
      }
    }
  }


  /** Margins over the rendered items: only the first right-aligned one
      gets the "auto" margin; an item gets the "1" margin when it is
      aligned "left" or has no "align", or follows a right-aligned one; any
      other item before the first right-aligned one gets no margin
      class. */
  lemma {:induction false} WalkedMargins(req: Request, expand: string, ns: seq<NavItem>, cs: seq<Option<seq<string>>>)
    requires |ns| == |cs|
    ensures Walked(req, expand, ns, cs).Ok? ==>
      var rs := Walked(req, expand, ns, cs).value.rendered;
      forall k :: 0 <= k < |rs| ==>
        (rs[k].margin == Some("ml-" + expand + "-auto") <==> IsRight(rs[k].source.align) && !RightBefore(rs, k)) &&
        (rs[k].margin == Some("ml-" + expand + "-1") <==> LeftAligned(rs[k].source.align) || RightBefore(rs, k))
    decreases |ns|
  {
    if ns != [] && Walked(req, expand, ns, cs).Ok? {
      var n := |ns| - 1;
      WalkedLast(req, expand, ns, cs);
      WalkedMargins(req, expand, ns[..n], cs[..n]);
      WalkedRight(req, expand, ns[..n], cs[..n]);
      var w0 := Walked(req, expand, ns[..n], cs[..n]).value;
      StepFacts(req, expand, w0, ns[n], cs[n]);
      var rs := Walked(req, expand, ns, cs).value.rendered;
      var m := |w0.rendered|;
      assert forall j :: 0 <= j < m ==> rs[j] == w0.rendered[j];
      forall k | 0 <= k < |rs|
        ensures (rs[k].margin == Some("ml-" + expand + "-auto") <==> IsRight(rs[k].source.align) && !RightBefore(rs, k)) &&
          (rs[k].margin == Some("ml-" + expand + "-1") <==> LeftAligned(rs[k].source.align) || RightBefore(rs, k))
      {
        MarginAt(rs, w0.rendered, k);
      }
    }
  }

  lemma MarginAt(rs: seq<Rendered>, r0: seq<Rendered>, k: nat)
    requires |r0| <= |rs| && k < |rs| && forall j :: 0 <= j < |r0| ==> rs[j] == r0[j]
    ensures k < |r0| ==> (RightBefore(rs, k) <==> RightBefore(r0, k))
    ensures k >= |r0| && |rs| == |r0| + 1 ==> (RightBefore(rs, k) <==> RightBefore(r0, |r0|))
  {
    if RightBefore(rs, k) {
      var j :| 0 <= j < k && IsRight(rs[j].source.align);
      if j < |r0| { assert IsRight(r0[j].source.align); }
    }
  }

  function ClassesOf(ns: seq<NavItem>): seq<Option<seq<string>>>
    reads set k | 0 <= k < |ns| :: ns[k]
  {
    seq(|ns|, k reads set k | 0 <= k < |ns| :: ns[k] requires 0 <= k < |ns| => ns[k].classes)
  }

  predicate Distinct(ns: seq<NavItem>)
  {
    forall i, j :: 0 <= i < j < |ns| ==> ns[i] != ns[j]
  }

  lemma {:induction false} FilterDistinct(ns: seq<NavItem>, p: NavItem -> bool)
    requires Distinct(ns)
    ensures Distinct(Filter(ns, p))
    decreases |ns|
  {
    if ns != [] {
      var n := |ns| - 1;
      assert ns == ns[..n] + [ns[n]];
      assert Distinct(ns[..n]);
      FilterDistinct(ns[..n], p);
      FilterSnoc(ns[..n], ns[n], p);
      assert ns[n] !in ns[..n];
    }
  }

  /** The ordered items of a bar without repeated items have no repeats. */
  lemma OrderedDistinct(navbar: seq<NavItem>, mode: Lookup)
    requires Distinct(navbar) && Ordered(navbar, mode).Ok?
    ensures Distinct(Ordered(navbar, mode).value)
  {
    var l := Filter(navbar, LeftFn());
    var r := Filter(navbar, RightFn());
    FilterDistinct(navbar, LeftFn());
    FilterDistinct(navbar, RightFn());
    var o := l + r;
    forall i, j | 0 <= i < j < |o| ensures o[i] != o[j] {
      if i < |l| && j >= |l| {
        assert o[i] in l && o[j] in r;
      }
    }
  }

  /** One step of the loop on the item itself. */
  method RenderItem(req: Request, expand: string, w: Walk, n: NavItem) returns (r: Result<Walk>)
    modifies n
    ensures r == Step(req, expand, w, n, old(n.classes))
    ensures r.Ok? ==> |r.value.classes| == |w.classes| + 1 && n.classes == r.value.classes[|w.classes|]
    ensures r.Ok? ==> r.value.classes[..|w.classes|] == w.classes
    ensures r.Err? ==> n.classes == old(n.classes)
  {
    if !Utils.HasPerms(req.perms, n.permissions) {
      return Ok(w.(classes := w.classes + [n.classes]));
    }
    if n.title.None? {
      return Err("AttributeError");
    }
    var links := RenderDropdown(req, n.dropdown);
    if |links| > 0 || |n.dropdown| == 0 {
      var m := NavMargin(n.align, w.isRight, expand);
      var c := n.classes;
      var cls := c.GetOr([]) + (if m.0.Some? then [m.0.value] else []);
      if n.classes.Some? {
        n.classes := Some(cls);
      }
      var h := n.href.GetOr("#");
      var item := Rendered(n, Replace(n.title.value, "%USERNAME%", req.username), cls, m.0, h,
                           Contains(req.path, h), |n.dropdown| > 0, links);
      r := Ok(Walk(w.rendered + [item], w.classes + [n.classes], m.1));
    } else {
      r := Ok(w.(classes := w.classes + [n.classes]));
    }
  }

  /** One pass of the render loop: the item at `i` is rendered on the
      walk so far. */
  method WalkStep(req: Request, expand: string, ns: seq<NavItem>, ghost cs: seq<Option<seq<string>>>, i: nat, w: Walk)
    returns (step: Result<Walk>)
    requires |cs| == |ns| && i < |ns| && ns[i].classes == cs[i]
    requires Walked(req, expand, ns[..i], cs[..i]) == Ok(w)
    requires Distinct(ns)
    requires forall k :: 0 <= k < i ==> ns[k].classes == w.classes[k]
    modifies ns[i]
    ensures step == Walked(req, expand, ns[..i + 1], cs[..i + 1])
    ensures forall k :: 0 <= k < |ns| && k != i ==> ns[k].classes == old(ns[k].classes)
    ensures step.Ok? ==> forall k :: 0 <= k <= i ==> ns[k].classes == step.value.classes[k]
  {
    WalkedSnoc(req, expand, ns, cs, i);
    step := RenderItem(req, expand, w, ns[i]);
    if step.Ok? {
      assert step.value.classes[..i] == w.classes;
      assert forall k :: 0 <= k < i ==> step.value.classes[k] == step.value.classes[..i][k];
    }
  }

  /** The render loop over the ordered items. */
  method WalkItems(req: Request, expand: string, ns: seq<NavItem>) returns (r: Result<Walk>)
    requires Distinct(ns)
    modifies set k | 0 <= k < |ns| :: ns[k]
    ensures r == Walked(req, expand, ns, old(ClassesOf(ns)))
    ensures r.Ok? ==> forall k :: 0 <= k < |ns| ==> ns[k].classes == r.value.classes[k]
  {
    ghost var cs := ClassesOf(ns);
    var w := Walk([], [], false);
    var i := 0;
    while i < |ns|
      invariant 0 <= i <= |ns|
      invariant Walked(req, expand, ns[..i], cs[..i]) == Ok(w)
      invariant forall k :: 0 <= k < i ==> ns[k].classes == w.classes[k]
      invariant forall k :: i <= k < |ns| ==> ns[k].classes == cs[k]
    {
      var step := WalkStep(req, expand, ns, cs, i, w);
      if step.Err? {
        WalkedErrStays(req, expand, ns, cs, i + 1);
        return step;
      }
      w := step.value;
      i := i + 1;
    }
    assert ns[..i] == ns && cs[..i] == cs;
    r := Ok(w);
  }

  /** _render_nav_links over the items of the bar, which it may change in
      place; an item in neither group is left alone. */
  method RenderNavLinks(req: Request, expand: string, navbar: seq<NavItem>, mode: Lookup) returns (r: Result<seq<Rendered>>)
    requires Distinct(navbar)
    modifies set k | 0 <= k < |navbar| :: navbar[k]
    ensures Ordered(navbar, mode).Err? ==> r == Err("KeyError") && forall k :: 0 <= k < |navbar| ==> navbar[k].classes == old(navbar[k].classes)
    ensures Ordered(navbar, mode).Ok? ==>
      var wk := Walked(req, expand, Ordered(navbar, mode).value, old(ClassesOf(Ordered(navbar, mode).value)));
      (wk.Err? ==> r == Err(wk.error)) &&
      (wk.Ok? ==> (r == Ok(wk.value.rendered) &&
                   forall k :: 0 <= k < |Ordered(navbar, mode).value| ==> Ordered(navbar, mode).value[k].classes == wk.value.classes[k]))
    ensures forall k :: 0 <= k < |navbar| && !IsLeft(navbar[k].align) && !IsRight(navbar[k].align) ==>
      navbar[k].classes == old(navbar[k].classes)
  {
    var ordered := Ordered(navbar, mode);
    if ordered.Err? {
      return Err("KeyError");
    }
    var ns := ordered.value;
    OrderedDistinct(navbar, mode);
    OrderedGroups(navbar, mode);
    var w := WalkItems(req, expand, ns);
    if w.Err? {
      return Err(w.error);
    }
    r := Ok(w.value.rendered);
  }

  lemma WalkedSnoc(req: Request, expand: string, ns: seq<NavItem>, cs: seq<Option<seq<string>>>, i: nat)
    requires |ns| == |cs| && i < |ns| && Walked(req, expand, ns[..i], cs[..i]).Ok?
    ensures Walked(req, expand, ns[..i + 1], cs[..i + 1]) == Step(req, expand, Walked(req, expand, ns[..i], cs[..i]).value, ns[i], cs[i])
  {
    assert ns[..i + 1][..i] == ns[..i] && cs[..i + 1][..i] == cs[..i];
  }

  lemma {:induction false} WalkedErrStays(req: Request, expand: string, ns: seq<NavItem>, cs: seq<Option<seq<string>>>, i: nat)
    requires |ns| == |cs| && i <= |ns| && Walked(req, expand, ns[..i], cs[..i]).Err?
    ensures Walked(req, expand, ns, cs) == Walked(req, expand, ns[..i], cs[..i])
    decreases |ns| - i
  {
    if i < |ns| {
      assert ns[..i + 1][..i] == ns[..i] && cs[..i + 1][..i] == cs[..i];
      WalkedErrStays(req, expand, ns, cs, i + 1);
    } else {
      assert ns[..i] == ns && cs[..i] == cs;
    }
  }
}

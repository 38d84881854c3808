/** The rows a data table works on. In query mode a row is a model
    instance: an object with a primary key, a display text (its __str__)
    and attributes that hold a column value, a foreign-key reference or a
    many-valued relation (a related manager). In list mode a row is a dict
    from field name to value. Field paths use "__" between relation
    steps, as in Django lookups. */
module DataTableRecords {
  import opened Common

  /** A database column value, or a value of a list-mode dict. */
  datatype Cell = Null | Int(i: int) | Str(s: string) | Bool(b: bool)

  datatype Obj = Obj(pk: int, text: string, attrs: map<string, Attr>)

  datatype Attr = Scalar(c: Cell) | Ref(o: Obj) | Many(objs: seq<Obj>)

  /** The Python value getattr hands back. */
  datatype PyVal = PCell(c: Cell) | PObj(o: Obj) | PMany(objs: seq<Obj>)

  type ListItem = map<string, Cell>

  /** Python truthiness of a column value. */
  predicate CellTruthy(c: Cell)
  {
    match c
    case Null => false
    case Int(i) => i != 0
    case Str(s) => s != []
    case Bool(b) => b
  }

  /** Model instances and managers are always truthy. */
  predicate Truthy(v: PyVal)
  {
    match v
    case PCell(c) => CellTruthy(c)
    case _ => true
  }

  /** str() of a value. */
  function CellStr(c: Cell): string
  {
    match c
    case Null => "None"
    case Int(i) => IntToString(i)
    case Str(s) => s
    case Bool(b) => if b then "True" else "False"
  }

  function PyStr(v: PyVal): string
  {
    match v
    case PCell(c) => CellStr(c)
    case PObj(o) => o.text
    case PMany(_) => "Manager"
  }

  function AttrValue(a: Attr): PyVal
  {
    match a
    case Scalar(c) => PCell(c)
    case Ref(o) => PObj(o)
    case Many(objs) => PMany(objs)
  }

  /** getattr(v, name) on a model instance; None when the attribute is missing
      (the caller decides between a default and AttributeError). */
  function GetAttr(v: PyVal, name: string): Option<PyVal>
  {
    match v
    case PObj(o) =>
      if name in o.attrs then Some(AttrValue(o.attrs[name]))
      else if name == "pk" then Some(PCell(Int(o.pk)))
      else None
    case _ => None
  }

  function GetAttrOr(v: PyVal, name: string, default: PyVal): PyVal
  {
    GetAttr(v, name).GetOr(default)
  }

  function Segments(path: string): (r: seq<string>)
    ensures |r| >= 1
  {
    Split(path, "__")
  }

  // ---------------------------------------------------------------------
  // _get_field_name

  /** Follows the remaining steps with getattr(..., None). */
  function WalkOrNone(v: PyVal, names: seq<string>): PyVal
    decreases |names|
  {
    if names == [] then v else WalkOrNone(GetAttrOr(v, names[0], PCell(Null)), names[1..])
  }

  /** _get_field_name: the getattr chain along the path, None as soon as a
      step is missing. */
  function GetFieldName(item: Obj, path: string): PyVal
  {
    var names := Segments(path);
    WalkOrNone(PObj(item), names)
  }

  lemma {:induction false} WalkOrNoneNull(names: seq<string>)
    ensures WalkOrNone(PCell(Null), names) == PCell(Null)
    decreases |names|
  {
    if names != [] {
      WalkOrNoneNull(names[1..]);
    }
  }

  /** A path of one step is a single getattr with default None; a path
      through a foreign key continues on the related row. */
  lemma GetFieldNameSteps(item: Obj, rel: string, rest: seq<string>)
    ensures WalkOrNone(PObj(item), [rel]) == GetAttrOr(PObj(item), rel, PCell(Null))
    ensures rel in item.attrs && item.attrs[rel].Ref? ==>
      WalkOrNone(PObj(item), [rel] + rest) == WalkOrNone(PObj(item.attrs[rel].o), rest)
  {
    assert ([rel] + rest)[1..] == rest;
  }

  /** Once a step is missing the whole chain is None. */
  lemma WalkOrNoneMissing(v: PyVal, names: seq<string>)
    requires names != [] && GetAttr(v, names[0]).None?
    ensures WalkOrNone(v, names) == PCell(Null)
  {
    WalkOrNoneNull(names[1..]);
  }

  // ---------------------------------------------------------------------
  // values_list and SQL column values

  /** The value a query reads for one column of a row: a scalar as stored,
      a foreign key as the related primary key. */
  function ColumnOf(o: Obj, name: string): Cell
  {
    if name in o.attrs then
      match o.attrs[name]
      case Scalar(c) => c
      case Ref(r) => Int(r.pk)
      case Many(_) => Null
    else if name == "pk" then Int(o.pk)
    else Null
  }

  /** The value the database sees under a lookup path: the joins follow the
      foreign keys; a NULL foreign key on the way gives NULL. */
  function Lookup(o: Obj, names: seq<string>): Cell
    requires names != []
    decreases |names|
  {
    if |names| == 1 then ColumnOf(o, names[0])
    else if names[0] in o.attrs && o.attrs[names[0]].Ref? then Lookup(o.attrs[names[0]].o, names[1..])
    else Null
  }

  function LookupPath(o: Obj, path: string): Cell
  {
    Lookup(o, Segments(path))
  }

  lemma LookupThroughNull(o: Obj, names: seq<string>)
    requires |names| >= 2
    requires names[0] in o.attrs && o.attrs[names[0]] == Scalar(Null)
    ensures Lookup(o, names) == Null
  {
  }

  // ---------------------------------------------------------------------
  // get_field_value

  /** get_field_value from step `i` on: getattr(..., "?") per step; a related
      manager yields the comma-joined str() of the last path segment over
      the related rows; a plain value is returned as is; a chain that ends
      on a model instance yields None. */
  function FieldValueFrom(v: PyVal, names: seq<string>, i: nat): PyVal
    requires i <= |names|
    decreases |names| - i
  {
    if i == |names| then PCell(Null)
    else
      var next := GetAttrOr(v, names[i], PCell(Str("?")));
      match next
      case PMany(objs) => PCell(Str(Join(ManyTexts(objs, names[|names| - 1]), ", ")))
      case PCell(_) => next
      case PObj(_) => FieldValueFrom(next, names, i + 1)
  }

  function ManyTexts(objs: seq<Obj>, name: string): (r: seq<string>)
    ensures |r| == |objs|
    ensures forall k :: 0 <= k < |objs| ==> r[k] == CellStr(ColumnOf(objs[k], name))
  {
    seq(|objs|, k requires 0 <= k < |objs| => CellStr(ColumnOf(objs[k], name)))
  }

  /** The value shown for a column in query mode; never a model instance. */
  function GetFieldValue(path: string, item: Obj): (r: PyVal)
    ensures !r.PObj? && !r.PMany?
  {
    FieldValueFromNoObj(PObj(item), Segments(path), 0);
    FieldValueFrom(PObj(item), Segments(path), 0)
  }

  lemma {:induction false} FieldValueFromNoObj(v: PyVal, names: seq<string>, i: nat)
    requires i <= |names|
    ensures FieldValueFrom(v, names, i).PCell?
    decreases |names| - i
  {
    if i < |names| {
      var next := GetAttrOr(v, names[i], PCell(Str("?")));
      if next.PObj? {
        FieldValueFromNoObj(next, names, i + 1);
      }
    }
  }

  /** A missing attribute shows as "?". */
  lemma GetFieldValueMissing(item: Obj, name: string)
    requires Segments(name) == [name]
    requires name !in item.attrs && name != "pk"
    ensures GetFieldValue(name, item) == PCell(Str("?"))
  {
  }

  /** A plain attribute is shown as stored. */
  lemma GetFieldValueScalar(item: Obj, name: string, c: Cell)
    requires Segments(name) == [name]
    requires name in item.attrs && item.attrs[name] == Scalar(c)
    ensures GetFieldValue(name, item) == PCell(c)
  {
  }

  /** A path through a foreign key shows the related row's column; a path
      that ends on a related row shows None. */
  lemma GetFieldValueRef(item: Obj, rel: string, name: string, target: Obj)
    requires rel in item.attrs && item.attrs[rel] == Ref(target)
    requires name in target.attrs && target.attrs[name].Scalar?
    ensures FieldValueFrom(PObj(item), [rel, name], 0) == PCell(target.attrs[name].c)
    ensures FieldValueFrom(PObj(item), [rel], 0) == PCell(Null)
  {
  }

  /** A many-valued relation shows the joined values of the last segment. */
  lemma GetFieldValueMany(item: Obj, rel: string, name: string, objs: seq<Obj>)
    requires rel in item.attrs && item.attrs[rel] == Many(objs)
    ensures FieldValueFrom(PObj(item), [rel, name], 0)
         == PCell(Str(Join(ManyTexts(objs, name), ", ")))
  {
  }
}

/** The schema datatypes of `src/lib/registry.ts`: selectors, selector groups,
    query constraints and registries, and the parts of the type-level
    inference (`InferItem`) that concern which keys a result has. */
module Schema {
  import opened Wrappers
  import opened Text

  /** The closed set of primitive kinds (`keyof Primitives`). */
  datatype Primitive = Boolean | Number | String | Date | Url

  function PrimitiveName(p: Primitive): string {
    match p
    case Boolean => "boolean"
    case Number => "number"
    case String => "string"
    case Date => "date"
    case Url => "url"
  }

  function ParsePrimitive(s: string): (r: Option<Primitive>)
    ensures r.Some? ==> PrimitiveName(r.value) == s
  {
    if s == "boolean" then Some(Boolean)
    else if s == "number" then Some(Number)
    else if s == "string" then Some(String)
    else if s == "date" then Some(Date)
    else if s == "url" then Some(Url)
    else None
  }

  /** A selector's `type`: a primitive, optionally suffixed with `[]`. */
  datatype SelectorType = SelectorType(base: Primitive, isArray: bool)

  /** The literal written in a registry, `"number"` or `"url[]"`. */
  function TypeName(t: SelectorType): string {
    PrimitiveName(t.base) + (if t.isArray then "[]" else "")
  }

  /** The template literal type `${Primitive}[]` | Primitive as a parser:
      the type names it admits and nothing else. */
  function ParseType(s: string): Option<SelectorType> {
    if EndsWith(s, "[]") then
      match ParsePrimitive(s[..|s| - 2])
      case Some(p) => Some(SelectorType(p, true))
      case None => None
    else
      match ParsePrimitive(s)
      case Some(p) => Some(SelectorType(p, false))
      case None => None
  }

  /** Every selector type has a name that parses back to it, and every
      string that parses is the name of what it parses to: the ten names are
      exactly the five primitives with and without `[]`. */
  lemma ParseTypeRoundTrip(t: SelectorType, s: string)
    ensures ParseType(TypeName(t)) == Some(t)
    ensures ParseType(s).Some? ==> TypeName(ParseType(s).value) == s
  {
    var n := TypeName(t);
    ParsePrimitiveName(t.base);
    if t.isArray {
      assert n[|n| - 2..] == "[]";
      assert n[..|n| - 2] == PrimitiveName(t.base);
    } else {
      assert n == PrimitiveName(t.base);
      NameNotBracketed(t.base);
    }
    if ParseType(s).Some? && EndsWith(s, "[]") {
      assert s == s[..|s| - 2] + "[]";
    }
  }

  lemma ParsePrimitiveName(p: Primitive)
    ensures ParsePrimitive(PrimitiveName(p)) == Some(p)
  {
    match p
    case Boolean =>
    case Number =>
    case String =>
    case Date =>
    case Url =>
  }

  /** The split that `extract` performs on a type name: whether it ends in
      `[]`, and the name with the last two characters sliced off if so. */
  function SplitType(s: string): (bool, string) {
    var isArray := EndsWith(s, "[]");
    (isArray, if isArray then s[..|s| - 2] else s)
  }

  /** On every selector type the split yields the array flag and the name of
      its primitive, so `extract`'s string test is the structural one. */
  lemma SplitTypeName(t: SelectorType)
    ensures SplitType(TypeName(t)) == (t.isArray, PrimitiveName(t.base))
  {
    var n := TypeName(t);
    if t.isArray {
      assert n[..|n| - 2] == PrimitiveName(t.base);
    } else {
      assert n == PrimitiveName(t.base);
      NameNotBracketed(t.base);
    }
  }

  lemma NameNotBracketed(p: Primitive)
    ensures !EndsWith(PrimitiveName(p), "[]")
  {
    var n := PrimitiveName(p);
    assert n[|n| - 1] != ']' by {
      match p
      case Boolean => assert n == "boolean";
      case Number => assert n == "number";
      case String => assert n == "string";
      case Date => assert n == "date";
      case Url => assert n == "url";
    }
    assert "[]"[1] == ']';
  }

  /** A regular-expression literal: its source text and the names of its
      named capture groups in declaration order. Matching is foreign. */
  datatype Regex = Regex(source: string, groupNames: seq<string>)

  /** `Selector`: a node query with an optional attribute and regex. */
  datatype Selector = Selector(
    ty: SelectorType,
    selector: string,
    attribute: Option<string> := None,
    regex: Option<Regex> := None)

  /** `Selector | SelectorShape`: a leaf, an `object` group extracted on the
      same node, or an `object[]` group extracted once per node matched by
      its `root` entry. */
  datatype Field =
    | Leaf(sel: Selector)
    | Object(shape: seq<Entry>)
    | ObjectArray(shape: seq<Entry>)

  datatype Entry = Entry(key: string, field: Field)

  /** `Selectors`, as the sequence `Object.entries` walks. */
  type Shape = seq<Entry>

  /** The keys of a shape. */
  function KeysOf(s: Shape): set<string> {
    set i | 0 <= i < |s| :: s[i].key
  }

  /** The field bound to `key`, the first such entry if any. */
  function Lookup(s: Shape, key: string): (r: Option<Field>)
    ensures r.Some? <==> key in KeysOf(s)
    ensures r.Some? ==> exists i :: 0 <= i < |s| && s[i] == Entry(key, r.value)
  {
    if s == [] then None
    else if s[0].key == key then Some(s[0].field)
    else
      var r := Lookup(s[1..], key);
      assert r.Some? ==> exists i :: 0 <= i < |s| - 1 && s[1..][i] == Entry(key, r.value);
      assert key in KeysOf(s[1..]) <==> key in KeysOf(s) by {
        assert forall i :: 0 <= i < |s| - 1 ==> s[1..][i] == s[i + 1];
        if key in KeysOf(s) {
          var i :| 0 <= i < |s| && s[i].key == key;
          assert i > 0 && s[1..][i - 1].key == key;
        }
      }
      r
  }

  /** Keys are pairwise distinct, as in an object literal. */
  predicate DistinctKeys(s: Shape) {
    forall i, j :: 0 <= i < j < |s| ==> s[i].key != s[j].key
  }

  /** The keys of a shape in entry order. */
  function KeyList(s: Shape): (ks: seq<string>)
    ensures |ks| == |s| && forall i :: 0 <= i < |s| ==> ks[i] == s[i].key
  {
    seq(|s|, i requires 0 <= i < |s| => s[i].key)
  }

  /** What the TypeScript types guarantee of a shape: its keys are distinct,
      and every `object[]` group's shape binds `root` to a `Selector`; an
      `object` group's shape need not have a `root`. */
  predicate WellFormedShape(s: Shape)
    decreases s
  {
    DistinctKeys(s) && forall i :: 0 <= i < |s| ==> WellFormedField(s[i].field)
  }

  predicate WellFormedField(f: Field)
    decreases f
  {
    match f
    case Leaf(_) => true
    case Object(sh) => WellFormedShape(sh)
    case ObjectArray(sh) => WellFormedShape(sh) && HasRoot(sh)
  }

  predicate HasRoot(s: Shape) {
    Lookup(s, "root").Some? && Lookup(s, "root").value.Leaf?
  }

  /** `shape.root.selector` of an `object[]` group. */
  function RootSelector(s: Shape): Selector
    requires HasRoot(s)
  {
    Lookup(s, "root").value.sel
  }

  /** Keys of a prefix are keys of the whole; with distinct keys, an entry's
      key is not among the keys before it. */
  lemma PrefixKeys(s: Shape, i: nat)
    requires i < |s|
    ensures KeysOf(s[..i]) + {s[i].key} == KeysOf(s[..i + 1])
    ensures DistinctKeys(s) ==> s[i].key !in KeysOf(s[..i])
  {
    assert forall j :: 0 <= j < i ==> s[..i][j] == s[..i + 1][j];
    assert s[..i + 1][i] == s[i];
  }

  /** Every prefix of a well-formed shape is well formed: the entries
      `extract` has walked so far form a shape of their own. */
  lemma PrefixWellFormed(s: Shape, i: nat)
    requires WellFormedShape(s) && i <= |s|
    ensures WellFormedShape(s[..i])
  {
    assert forall j :: 0 <= j < i ==> s[..i][j] == s[j];
  }

  /** An `object` group whose shape has no `root` is well formed, while the
      same shape as an `object[]` group is not. */
  lemma RootOnlyForObjectArrays(key: string, sel: Selector)
    requires key != "root"
    ensures WellFormedField(Object([Entry(key, Leaf(sel))]))
    ensures !WellFormedField(ObjectArray([Entry(key, Leaf(sel))]))
  {
    var s := [Entry(key, Leaf(sel))];
    assert Lookup(s, "root") == None;
  }

  /** `QueryShape`: an absent `required` reads as false. */
  datatype QueryShape = QueryShape(ty: Primitive, pattern: Option<Regex> := None, required: bool := false)

  datatype QueryParam = QueryParam(key: string, shape: QueryShape)

  predicate Declares(schema: seq<QueryParam>, key: string) {
    exists i :: 0 <= i < |schema| && schema[i].key == key
  }

  function ParamKeys(schema: seq<QueryParam>): (ks: seq<string>)
    ensures |ks| == |schema| && forall i :: 0 <= i < |schema| ==> ks[i] == schema[i].key
  {
    seq(|schema|, i requires 0 <= i < |schema| => schema[i].key)
  }

  /** `RequiredKeys<R["list"]["query"]>`. */
  function RequiredKeys(schema: seq<QueryParam>): set<string> {
    set i | 0 <= i < |schema| && schema[i].shape.required :: schema[i].key
  }

  /** `Registry`. */
  datatype Registry = Registry(
    path: string,
    itemFields: Shape,
    itemColumns: Option<Shape>,
    listQuery: seq<QueryParam>,
    listFields: Shape)

  predicate WellFormedRegistry(r: Registry) {
    && WellFormedShape(r.itemFields)
    && (r.itemColumns.Some? ==> WellFormedShape(r.itemColumns.value))
    && WellFormedShape(r.listFields)
    && (forall i, j :: 0 <= i < j < |r.listQuery| ==> r.listQuery[i].key != r.listQuery[j].key)
  }

  /** `keyof InferColumns<R>`: the declared column keys, none without columns. */
  function ColumnKeys(r: Registry): set<string> {
    if r.itemColumns.Some? then KeysOf(r.itemColumns.value) else {}
  }

  /** The keys of `InferItem<R, C>`: the item fields plus exactly the columns
      named in `C`, or all declared columns when `C` is not given. `C` ranges
      over `keyof InferColumns<R>`. */
  function InferItemKeys(r: Registry, c: Option<seq<string>>): (keys: set<string>)
    requires c.Some? ==> forall i :: 0 <= i < |c.value| ==> c.value[i] in ColumnKeys(r)
    ensures KeysOf(r.itemFields) <= keys <= KeysOf(r.itemFields) + ColumnKeys(r)
    ensures c.Some? ==> forall k | k in keys && k !in KeysOf(r.itemFields) :: k in c.value
    ensures c.Some? ==> forall i :: 0 <= i < |c.value| ==> c.value[i] in keys
  {
    KeysOf(r.itemFields) + (if c.Some? then (set i | 0 <= i < |c.value| :: c.value[i]) else ColumnKeys(r))
  }

  /** A field none of whose selectors asks for a `url`. */
  predicate UrlFree(f: Field)
    decreases f
  {
    match f
    case Leaf(sel) => !sel.ty.base.Url?
    case Object(sh) => forall i :: 0 <= i < |sh| ==> UrlFree(sh[i].field)
    case ObjectArray(sh) => forall i :: 0 <= i < |sh| ==> UrlFree(sh[i].field)
  }
}

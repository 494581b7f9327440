/** The extraction interpreter of `src/lib/endpoint.ts` as functions:
    `getRawValue`, `applyRegex`, `coerce`, and the value `extract` builds
    for a selector map, together with the result shape `InferSelector`
    promises and the lemmas that the interpreter delivers it. The class
    methods in module Endpoint compute these values step by step. */
module Extraction {
  import opened Wrappers
  import opened Text
  import opened Schema
  import opened Runtime
  import opened Errors

  /** The JavaScript values extraction produces. `NumberValue(t)` is
      `Number(t)` and `DateValue(t)` is `new Date(t)`, both kept symbolic;
      `UrlValue(t)` is a `URL` built from `t`. */
  datatype Value =
    | Undefined
    | Null
    | BoolValue(b: bool)
    | NumberValue(text: string)
    | StringValue(s: string)
    | DateValue(text: string)
    | UrlValue(href: string)
    | List(items: seq<Value>)
    | Obj(fields: Record)

  /** An extracted record: one value per key. */
  type Record = map<string, Value>

  /** `v` is a value of `Primitives[p]`. */
  predicate HasPrimitive(v: Value, p: Primitive) {
    match p
    case Boolean => v.BoolValue?
    case Number => v.NumberValue?
    case String => v.StringValue?
    case Date => v.DateValue?
    case Url => v.UrlValue?
  }

  /** `getRawValue`: the attribute's value (`""` when the node lacks it) if
      the selector names a non-empty attribute, else the trimmed text. */
  function RawValue(h: Host, n: Node, sel: Selector): string {
    if sel.attribute.Some? && sel.attribute.value != "" then
      h.getAttribute(n, sel.attribute.value).GetOr("")
    else
      Trim(h.textContent(n))
  }

  /** The raw value is the named attribute (`""` when the node lacks it)
      exactly when the attribute name is non-empty, and otherwise the text
      content as `Trim` leaves it; the empty attribute name reads as none. */
  lemma RawValueCases(h: Host, n: Node, sel: Selector)
    ensures sel.attribute.Some? && sel.attribute.value != "" ==>
              RawValue(h, n, sel) == h.getAttribute(n, sel.attribute.value).GetOr("")
    ensures sel.attribute.None? || sel.attribute.value == "" ==>
              RawValue(h, n, sel) == Trim(h.textContent(n))
    ensures RawValue(h, n, sel.(attribute := Some(""))) == RawValue(h, n, sel.(attribute := None))
  {
  }

  /** `applyRegex`. */
  function ApplyRegex(h: Host, value: string, sel: Selector): string {
    match sel.regex
    case None => value
    case Some(re) =>
      match h.exec(re, value)
      case None => ""
      case Some(m) =>
        if m.groups.Some? then
          if m.groups.value == [] then "" else m.groups.value[0].capture.GetOr("")
        else
          m.group1.GetOr("")
  }

  /** What `applyRegex` yields, for a regex engine that reports named groups
      as JavaScript does: the value itself without a regex, `""` without a
      match, the first-declared named group's capture when the regex has
      named groups (positional group 1 is then ignored), else group 1; a
      group that did not participate gives `""`. */
  lemma ApplyRegexCases(h: Host, value: string, sel: Selector)
    requires sel.regex.Some? && h.exec(sel.regex.value, value).Some? ==>
               MatchAgrees(sel.regex.value, h.exec(sel.regex.value, value).value)
    ensures sel.regex.None? ==> ApplyRegex(h, value, sel) == value
    ensures sel.regex.Some? && h.exec(sel.regex.value, value).None? ==>
              ApplyRegex(h, value, sel) == ""
    ensures sel.regex.Some? && h.exec(sel.regex.value, value).Some? ==>
              var re, m := sel.regex.value, h.exec(sel.regex.value, value).value;
              if re.groupNames != [] then
                && m.groups.value[0].name == re.groupNames[0]
                && ApplyRegex(h, value, sel) == m.groups.value[0].capture.GetOr("")
              else
                ApplyRegex(h, value, sel) == m.group1.GetOr("")
  {
  }

  /** `coerce`: boolean is true exactly for `"1"` and `"true"`, string is
      the identity, number and date are the symbolic `Number`/`Date` of the
      text, and url throws `TypeError` unless the text is a valid URL. The
      value has the requested primitive kind. */
  function Coerce(h: Host, value: string, p: Primitive): (r: Result<Value, Error>)
    ensures r.Ok? <==> (p.Url? ==> h.isUrl(value))
    ensures r.Ok? ==> HasPrimitive(r.value, p)
    ensures r.Err? ==> r.error == InvalidUrl(value)
    ensures p.Boolean? ==> (r.value.b <==> value == "1" || value == "true")
    ensures p.String? ==> r.value.s == value
    ensures p.Number? ==> r.value.text == value
    ensures p.Date? ==> r.value.text == value
    ensures p.Url? && r.Ok? ==> r.value.href == value
  {
    match p
    case Boolean => Ok(BoolValue(value == "1" || value == "true"))
    case Number => Ok(NumberValue(value))
    case Date => Ok(DateValue(value))
    case Url => if h.isUrl(value) then Ok(UrlValue(value)) else Err(InvalidUrl(value))
    case String => Ok(StringValue(value))
  }

  /** Raw value, then regex, then coercion: what one matched node yields. */
  function NodeValue(h: Host, n: Node, sel: Selector): Result<Value, Error> {
    Coerce(h, ApplyRegex(h, RawValue(h, n, sel), sel), sel.ty.base)
  }

  /** `nodes.map(...)` over the nodes of an array-of-primitive selector: one
      value per node, in document order, or the first node's error. */
  function LeafValues(h: Host, nodes: seq<Node>, sel: Selector): (r: Result<seq<Value>, Error>)
    ensures r.Ok? <==> forall i :: 0 <= i < |nodes| ==> NodeValue(h, nodes[i], sel).Ok?
    ensures r.Ok? ==>
              && |r.value| == |nodes|
              && forall i :: 0 <= i < |nodes| ==> NodeValue(h, nodes[i], sel) == Ok(r.value[i])
  {
    if nodes == [] then Ok([])
    else
      var p := nodes[..|nodes| - 1];
      assert forall i :: 0 <= i < |p| ==> p[i] == nodes[i];
      match LeafValues(h, p, sel)
      case Err(e) => Err(e)
      case Ok(vs) =>
        match NodeValue(h, nodes[|nodes| - 1], sel)
        case Err(e) => Err(e)
        case Ok(v) => Ok(vs + [v])
  }

  function Objs(rs: seq<Record>): (vs: seq<Value>)
    ensures |vs| == |rs| && forall i :: 0 <= i < |rs| ==> vs[i] == Obj(rs[i])
  {
    seq(|rs|, i requires 0 <= i < |rs| => Obj(rs[i]))
  }

  /** The value `extract` stores for one field on `node`. */
  function ExtractedField(h: Host, node: Node, f: Field): Result<Value, Error>
    requires WellFormedField(f)
    decreases f, 0
  {
    match f
    case Leaf(sel) =>
      if sel.ty.isArray then
        (match LeafValues(h, h.querySelectorAll(node, sel.selector), sel)
         case Err(e) => Err(e)
         case Ok(vs) => Ok(List(vs)))
      else
        (match QuerySelector(h, node, sel.selector)
         case None => Ok(Undefined)
         case Some(n) => NodeValue(h, n, sel))
    case Object(sh) =>
      (match Extracted(h, node, sh)
       case Err(e) => Err(e)
       case Ok(r) => Ok(Obj(r)))
    case ObjectArray(sh) =>
      match ExtractedEach(h, h.querySelectorAll(node, RootSelector(sh).selector), sh)
      case Err(e) => Err(e)
      case Ok(rs) => Ok(List(Objs(rs)))
  }

  /** The record `extract(node, s)` returns: entries in order, each key
      assigned its field's value; the first error aborts. */
  function Extracted(h: Host, node: Node, s: Shape): Result<Record, Error>
    requires WellFormedShape(s)
    decreases s, 0
  {
    if s == [] then Ok(map[])
    else
      match Extracted(h, node, s[..|s| - 1])
      case Err(e) => Err(e)
      case Ok(out) =>
        match ExtractedField(h, node, s[|s| - 1].field)
        case Err(e) => Err(e)
        case Ok(v) => Ok(out[s[|s| - 1].key := v])
  }

  /** One more entry of the selector map: its field's value is stored
      under its key, or its error is the result. */
  lemma ExtractedStep(h: Host, node: Node, s: Shape, i: nat, out: Record)
    requires WellFormedShape(s) && i < |s|
    requires WellFormedShape(s[..i]) && Extracted(h, node, s[..i]) == Ok(out)
    ensures WellFormedShape(s[..i + 1])
    ensures Extracted(h, node, s[..i + 1]) ==
      match ExtractedField(h, node, s[i].field)
      case Err(e) => Err(e)
      case Ok(v) => Ok(out[s[i].key := v])
  {
    PrefixWellFormed(s, i + 1);
    assert s[..i + 1][..i] == s[..i] && s[..i + 1][i] == s[i];
  }

  /** `nodes.map((n) => extract(n, s))`: one record per node, in document
      order, or the first node's error. */
  function ExtractedEach(h: Host, nodes: seq<Node>, s: Shape): Result<seq<Record>, Error>
    requires WellFormedShape(s)
    decreases s, 1, |nodes|
  {
    if nodes == [] then Ok([])
    else
      match ExtractedEach(h, nodes[..|nodes| - 1], s)
      case Err(e) => Err(e)
      case Ok(rs) =>
        match Extracted(h, nodes[|nodes| - 1], s)
        case Err(e) => Err(e)
        case Ok(r) => Ok(rs + [r])
  }

  /** Mapping `extract` over nodes yields one record per node, in order,
      and throws exactly when some node throws. */
  lemma ExtractedEachSpec(h: Host, nodes: seq<Node>, s: Shape)
    requires WellFormedShape(s)
    ensures var r := ExtractedEach(h, nodes, s);
      && (r.Ok? <==> forall i :: 0 <= i < |nodes| ==> Extracted(h, nodes[i], s).Ok?)
      && (r.Ok? ==>
            && |r.value| == |nodes|
            && forall i :: 0 <= i < |nodes| ==> Extracted(h, nodes[i], s) == Ok(r.value[i]))
  {
    ExtractedEachOkIff(h, nodes, s);
    ExtractedEachValues(h, nodes, s);
  }

  lemma {:induction false} ExtractedEachOkIff(h: Host, nodes: seq<Node>, s: Shape)
    requires WellFormedShape(s)
    ensures ExtractedEach(h, nodes, s).Ok? <==> forall i :: 0 <= i < |nodes| ==> Extracted(h, nodes[i], s).Ok?
  {
    if nodes != [] {
      var p, last := nodes[..|nodes| - 1], nodes[|nodes| - 1];
      assert ExtractedEach(h, nodes, s).Ok? <==> ExtractedEach(h, p, s).Ok? && Extracted(h, last, s).Ok?;
      ExtractedEachOkIff(h, p, s);
      assert forall i :: 0 <= i < |p| ==> p[i] == nodes[i];
    }
  }

  lemma {:induction false} ExtractedEachValues(h: Host, nodes: seq<Node>, s: Shape)
    requires WellFormedShape(s)
    ensures var r := ExtractedEach(h, nodes, s);
      r.Ok? ==>
        && |r.value| == |nodes|
        && forall i :: 0 <= i < |nodes| ==> Extracted(h, nodes[i], s) == Ok(r.value[i])
  {
    if nodes != [] {
      var p, last := nodes[..|nodes| - 1], nodes[|nodes| - 1];
      ExtractedEachValues(h, p, s);
      var first := ExtractedEach(h, p, s);
      if first.Ok? && Extracted(h, last, s).Ok? {
        var rs := first.value + [Extracted(h, last, s).value];
        assert forall i :: 0 <= i < |p| ==> rs[i] == first.value[i] && p[i] == nodes[i];
      }
    }
  }

  /** Once the entries walked so far have thrown, `extract` throws that
      error: the remaining entries are not visited. */
  lemma {:induction false} ExtractedErrPersists(h: Host, node: Node, s: Shape, i: nat)
    requires WellFormedShape(s) && i <= |s|
    requires WellFormedShape(s[..i]) && Extracted(h, node, s[..i]).Err?
    ensures Extracted(h, node, s) == Extracted(h, node, s[..i])
    decreases |s| - i
  {
    if i < |s| {
      assert s[..i + 1][..i] == s[..i];
      PrefixWellFormed(s, i + 1);
      ExtractedErrPersists(h, node, s, i + 1);
    } else {
      assert s[..i] == s;
    }
  }

  /** Once one of the nodes walked so far has thrown, the `map` throws that
      error. */
  lemma {:induction false} EachErrPersists(h: Host, nodes: seq<Node>, s: Shape, i: nat)
    requires WellFormedShape(s) && i <= |nodes|
    requires ExtractedEach(h, nodes[..i], s).Err?
    ensures ExtractedEach(h, nodes, s) == ExtractedEach(h, nodes[..i], s)
    decreases |nodes| - i
  {
    if i < |nodes| {
      assert nodes[..i + 1][..i] == nodes[..i];
      EachErrPersists(h, nodes, s, i + 1);
    } else {
      assert nodes[..i] == nodes;
    }
  }

  /** The one-entry map `{ value: selector }` that `fetchColumn` extracts
      holds exactly the selector's value under `value`. */
  lemma SingleEntry(h: Host, node: Node, key: string, f: Field)
    requires WellFormedField(f)
    ensures var r, v := Extracted(h, node, [Entry(key, f)]), ExtractedField(h, node, f);
      && (v.Err? ==> r == Err(v.error))
      && (v.Ok? ==> r == Ok(map[key := v.value]))
  {
    assert [Entry(key, f)][..0] == [];
  }

  /** A selector's outcome on a node: a scalar with no matching node is
      `undefined` and does not throw; a scalar with a match is the first
      match's value; an array selector has one value per matching node, in
      document order, and is `[]` when nothing matches. */
  lemma LeafExtraction(h: Host, node: Node, sel: Selector)
    ensures var nodes, r := h.querySelectorAll(node, sel.selector), ExtractedField(h, node, Leaf(sel));
      && (!sel.ty.isArray && nodes == [] ==> r == Ok(Undefined))
      && (!sel.ty.isArray && nodes != [] ==> r == NodeValue(h, nodes[0], sel))
      && (sel.ty.isArray ==>
            (r.Ok? <==> forall i :: 0 <= i < |nodes| ==> NodeValue(h, nodes[i], sel).Ok?)
            && (r.Ok? ==>
                  && r.value.List? && |r.value.items| == |nodes|
                  && forall i :: 0 <= i < |nodes| ==> NodeValue(h, nodes[i], sel) == Ok(r.value.items[i])))
      && (sel.ty.isArray && nodes == [] ==> r == Ok(List([])))
  {
  }

  /** An `object[]` group yields one record per node its `root` selector
      matches, each extracted against the group's whole shape (so each has
      a `root` key), and `[]` when nothing matches. */
  lemma ObjectArrayExtraction(h: Host, node: Node, sh: Shape)
    requires WellFormedField(ObjectArray(sh))
    ensures var nodes, r := h.querySelectorAll(node, RootSelector(sh).selector), ExtractedField(h, node, ObjectArray(sh));
      && (r.Ok? <==> forall i :: 0 <= i < |nodes| ==> Extracted(h, nodes[i], sh).Ok?)
      && (r.Ok? ==>
            && r.value.List? && |r.value.items| == |nodes|
            && forall i :: 0 <= i < |nodes| ==>
                 Extracted(h, nodes[i], sh) == Ok(r.value.items[i].fields)
                 && r.value.items[i].Obj? && "root" in r.value.items[i].fields)
      && (nodes == [] ==> r == Ok(List([])))
  {
    var nodes := h.querySelectorAll(node, RootSelector(sh).selector);
    var r := ExtractedField(h, node, ObjectArray(sh));
    ExtractedEachSpec(h, nodes, sh);
    if r.Ok? {
      forall i | 0 <= i < |nodes|
        ensures "root" in r.value.items[i].fields
      {
        ExtractedEntries(h, nodes[i], sh);
      }
    }
  }

  /** `extract` returns exactly one key per entry of the selector map, each
      holding that entry's value, and throws only if some entry does. */
  lemma ExtractedEntries(h: Host, node: Node, s: Shape)
    requires WellFormedShape(s)
    ensures var r := Extracted(h, node, s);
      && (r.Ok? <==> forall i :: 0 <= i < |s| ==> ExtractedField(h, node, s[i].field).Ok?)
      && (r.Ok? ==>
            && r.value.Keys == KeysOf(s)
            && forall i :: 0 <= i < |s| ==> ExtractedField(h, node, s[i].field) == Ok(r.value[s[i].key]))
  {
    ExtractedOkIff(h, node, s);
    if Extracted(h, node, s).Ok? {
      ExtractedKeys(h, node, s);
      ExtractedValues(h, node, s);
    }
  }

  lemma {:induction false} ExtractedOkIff(h: Host, node: Node, s: Shape)
    requires WellFormedShape(s)
    ensures Extracted(h, node, s).Ok? <==> forall i :: 0 <= i < |s| ==> ExtractedField(h, node, s[i].field).Ok?
  {
    if s != [] {
      var p := s[..|s| - 1];
      PrefixWellFormed(s, |s| - 1);
      ExtractedOkIff(h, node, p);
      assert forall i :: 0 <= i < |p| ==> p[i] == s[i];
      if Extracted(h, node, p).Ok? {
        assert Extracted(h, node, s).Ok? <==> ExtractedField(h, node, s[|s| - 1].field).Ok?;
      }
    }
  }

  lemma {:induction false} ExtractedKeys(h: Host, node: Node, s: Shape)
    requires WellFormedShape(s) && Extracted(h, node, s).Ok?
    ensures Extracted(h, node, s).value.Keys == KeysOf(s)
  {
    if s != [] {
      var p := s[..|s| - 1];
      PrefixWellFormed(s, |s| - 1);
      ExtractedKeys(h, node, p);
      PrefixKeys(s, |s| - 1);
      assert s[..|s|] == s;
    }
  }

  lemma {:induction false} ExtractedValues(h: Host, node: Node, s: Shape)
    requires WellFormedShape(s) && Extracted(h, node, s).Ok?
    ensures var out := Extracted(h, node, s).value;
      forall i :: 0 <= i < |s| ==> s[i].key in out && ExtractedField(h, node, s[i].field) == Ok(out[s[i].key])
  {
    if s != [] {
      var p, last := s[..|s| - 1], s[|s| - 1];
      PrefixWellFormed(s, |s| - 1);
      ExtractedValues(h, node, p);
      var outp, v := Extracted(h, node, p).value, ExtractedField(h, node, last.field).value;
      var out := Extracted(h, node, s).value;
      assert out == outp[last.key := v];
      forall i | 0 <= i < |s|
        ensures s[i].key in out && ExtractedField(h, node, s[i].field) == Ok(out[s[i].key])
      {
        if i < |p| {
          assert p[i] == s[i];
          assert s[i].key != last.key;
          assert out[s[i].key] == outp[p[i].key];
        }
      }
    }
  }

  /** `InferSelector<T>` widened to what `extract` stores: the type gives a
      scalar selector `Primitives[U]`, but a scalar whose node is missing is
      `undefined`, so `undefined` is admitted there too. */
  predicate Conforms(v: Value, f: Field)
    decreases f
  {
    match f
    case Leaf(sel) =>
      if sel.ty.isArray then v.List? && forall x | x in v.items :: HasPrimitive(x, sel.ty.base)
      else v.Undefined? || HasPrimitive(v, sel.ty.base)
    case Object(sh) => v.Obj? && RecordConforms(v.fields, sh)
    case ObjectArray(sh) => v.List? && forall x | x in v.items :: x.Obj? && RecordConforms(x.fields, sh)
  }

  /** `InferSelectors<T>`: exactly the shape's keys, each conforming. */
  predicate RecordConforms(r: Record, s: Shape)
    decreases s
  {
    && r.Keys == KeysOf(s)
    && forall i :: 0 <= i < |s| ==> s[i].key in r && Conforms(r[s[i].key], s[i].field)
  }

  /** The only thing extraction can throw is the `TypeError` of a URL built
      from a string that is not one. */
  predicate IsUrlFailure(h: Host, e: Error) {
    e.InvalidUrl? && !h.isUrl(e.input)
  }

  /** Whatever a field extracts has the shape its schema declares; a
      failure is a URL failure. */
  lemma {:induction false} FieldConforms(h: Host, node: Node, f: Field)
    requires WellFormedField(f)
    ensures var r := ExtractedField(h, node, f);
      && (r.Ok? ==> Conforms(r.value, f))
      && (r.Err? ==> IsUrlFailure(h, r.error))
    decreases f, 0
  {
    match f
    case Leaf(sel) =>
      var nodes := h.querySelectorAll(node, sel.selector);
      var r := LeafValues(h, nodes, sel);
      if sel.ty.isArray && r.Ok? {
        forall x | x in r.value
          ensures HasPrimitive(x, sel.ty.base)
        {
          var i :| 0 <= i < |r.value| && r.value[i] == x;
        }
      }
      if sel.ty.isArray && r.Err? {
        LeafValuesError(h, nodes, sel);
      }
    case Object(sh) =>
      ShapeConforms(h, node, sh);
    case ObjectArray(sh) =>
      var nodes := h.querySelectorAll(node, RootSelector(sh).selector);
      EachConforms(h, nodes, sh);
      var r := ExtractedEach(h, nodes, sh);
      if r.Ok? {
        forall x | x in Objs(r.value)
          ensures x.Obj? && RecordConforms(x.fields, sh)
        {
          var i :| 0 <= i < |r.value| && Objs(r.value)[i] == x;
        }
      }
  }

  lemma {:induction false} LeafValuesError(h: Host, nodes: seq<Node>, sel: Selector)
    ensures LeafValues(h, nodes, sel).Err? ==> IsUrlFailure(h, LeafValues(h, nodes, sel).error)
  {
    if nodes != [] {
      LeafValuesError(h, nodes[..|nodes| - 1], sel);
    }
  }

  /** `InferSelectors<T>` holds of every record `extract` returns. */
  lemma {:induction false} ShapeConforms(h: Host, node: Node, s: Shape)
    requires WellFormedShape(s)
    ensures var r := Extracted(h, node, s);
      && (r.Ok? ==> RecordConforms(r.value, s))
      && (r.Err? ==> IsUrlFailure(h, r.error))
    decreases s, 0
  {
    ExtractedEntries(h, node, s);
    var r := Extracted(h, node, s);
    forall i | 0 <= i < |s|
      ensures var f := ExtractedField(h, node, s[i].field);
        && (f.Ok? ==> Conforms(f.value, s[i].field))
        && (f.Err? ==> IsUrlFailure(h, f.error))
    {
      FieldConforms(h, node, s[i].field);
    }
    if r.Err? {
      ShapeError(h, node, s);
    }
  }

  lemma {:induction false} ShapeError(h: Host, node: Node, s: Shape)
    requires WellFormedShape(s)
    requires forall i :: 0 <= i < |s| ==> var f := ExtractedField(h, node, s[i].field);
               f.Err? ==> IsUrlFailure(h, f.error)
    ensures Extracted(h, node, s).Err? ==> IsUrlFailure(h, Extracted(h, node, s).error)
  {
    if s != [] {
      var p := s[..|s| - 1];
      assert forall i :: 0 <= i < |p| ==> p[i] == s[i];
      ShapeError(h, node, p);
    }
  }

  lemma {:induction false} EachConforms(h: Host, nodes: seq<Node>, s: Shape)
    requires WellFormedShape(s)
    ensures var r := ExtractedEach(h, nodes, s);
      && (r.Ok? ==> forall i :: 0 <= i < |r.value| ==> RecordConforms(r.value[i], s))
      && (r.Err? ==> IsUrlFailure(h, r.error))
    decreases s, 1, |nodes|
  {
    if nodes != [] {
      EachConforms(h, nodes[..|nodes| - 1], s);
      ShapeConforms(h, nodes[|nodes| - 1], s);
      var r := ExtractedEach(h, nodes, s);
      if r.Ok? {
        ExtractedEachSpec(h, nodes, s);
        forall i | 0 <= i < |r.value|
          ensures RecordConforms(r.value[i], s)
        {
          ShapeConforms(h, nodes[i], s);
        }
      }
    }
  }

  /** Only a `url` selector can make extraction throw: a field without one
      always extracts. */
  lemma {:induction false} UrlFreeFieldExtracts(h: Host, node: Node, f: Field)
    requires WellFormedField(f) && UrlFree(f)
    ensures ExtractedField(h, node, f).Ok?
    decreases f, 0
  {
    match f
    case Leaf(sel) =>
    case Object(sh) =>
      UrlFreeShapeExtracts(h, node, sh);
    case ObjectArray(sh) =>
      var nodes := h.querySelectorAll(node, RootSelector(sh).selector);
      forall i | 0 <= i < |nodes|
        ensures Extracted(h, nodes[i], sh).Ok?
      {
        UrlFreeShapeExtracts(h, nodes[i], sh);
      }
      ExtractedEachSpec(h, nodes, sh);
  }

  lemma {:induction false} UrlFreeShapeExtracts(h: Host, node: Node, s: Shape)
    requires WellFormedShape(s) && forall i :: 0 <= i < |s| ==> UrlFree(s[i].field)
    ensures Extracted(h, node, s).Ok?
    decreases s, 0
  {
    if s != [] {
      var p := s[..|s| - 1];
      assert forall i :: 0 <= i < |p| ==> p[i] == s[i];
      UrlFreeShapeExtracts(h, node, p);
      UrlFreeFieldExtracts(h, node, s[|s| - 1].field);
    }
  }

  lemma PaddedNameTrims()
    ensures Trim("  Alice  ") == "Alice"
  {
    assert Spaces(2) + "Alice" + Spaces(2) == "  Alice  ";
    TrimPadded("Alice", 2);
  }

  lemma WorldLabelTrims()
    ensures Trim("Gilgamesh [Primal]") == "Gilgamesh [Primal]"
  {
    assert Spaces(0) + "Gilgamesh [Primal]" + Spaces(0) == "Gilgamesh [Primal]";
    TrimPadded("Gilgamesh [Primal]", 0);
  }

  /** The scenario of a `string` selector over a node whose text is padded
      with spaces: the extracted value is the trimmed text. */
  lemma TrimmedTextScenario(h: Host, doc: Node, n: Node)
    requires h.querySelectorAll(doc, "#name") == [n]
    requires h.textContent(n) == "  Alice  "
    ensures Extracted(h, doc, [Entry("name", Leaf(Selector(SelectorType(String, false), "#name")))])
            == Ok(map["name" := StringValue("Alice")])
  {
    var sel := Selector(SelectorType(String, false), "#name");
    PaddedNameTrims();
    LeafExtraction(h, doc, sel);
    SingleEntry(h, doc, "name", Leaf(sel));
  }

  /** The scenario of a named-group regex on a world label: the first named
      group's capture is the value. */
  lemma NamedGroupScenario(h: Host, doc: Node, n: Node)
    requires h.querySelectorAll(doc, ".world") == [n]
    requires h.textContent(n) == "Gilgamesh [Primal]"
    requires h.exec(Regex(@"^(?<world>\w+)", ["world"]), "Gilgamesh [Primal]")
             == Some(Match(Some([NamedGroup("world", Some("Gilgamesh"))]), Some("Gilgamesh")))
    ensures Extracted(h, doc, [Entry("world_name", Leaf(Selector(SelectorType(String, false), ".world",
              regex := Some(Regex(@"^(?<world>\w+)", ["world"])))))])
            == Ok(map["world_name" := StringValue("Gilgamesh")])
  {
    var sel := Selector(SelectorType(String, false), ".world", regex := Some(Regex(@"^(?<world>\w+)", ["world"])));
    WorldLabelTrims();
    assert ApplyRegex(h, "Gilgamesh [Primal]", sel) == "Gilgamesh";
    LeafExtraction(h, doc, sel);
    SingleEntry(h, doc, "world_name", Leaf(sel));
  }
}

/** The `Endpoint` class of `src/lib/endpoint.ts` and the `Lodestone` class
    of `src/index.ts`. `get` and `find` are specified by the functions `Got`
    and `Found`, which compose the extraction, validation and request
    models; the methods compute the same results step by step and update
    the options object they share, as `Object.assign` does. */
module Client {
  import opened Wrappers
  import opened Schema
  import opened Runtime
  import opened Errors
  import opened Extraction
  import Query
  import opened Http
  import Registries

  /** The value `fetchColumn(id, key, rest)` resolves to: `undefined` for a
      key the registry does not declare as a column or when the column page
      gives no document, else the column selector's value on that page. */
  function ColumnValue(h: Host, reg: Registry, id: string, key: string, rest: Options): (r: Result<Value, Error>)
    requires WellFormedRegistry(reg)
    ensures key !in ColumnKeys(reg) ==> r == Ok(Undefined)
  {
    match reg.itemColumns
    case None => Ok(Undefined)
    case Some(cols) =>
      match Lookup(cols, key)
      case None => Ok(Undefined)
      case Some(f) =>
        assert WellFormedField(f);
        match FetchDocument(h, reg.path, id + "/" + key, rest)
        case Err(e) => Err(e)
        case Ok(None) => Ok(Undefined)
        case Ok(Some(doc)) => ExtractedField(h, doc, f)
  }

  /** A group column none of whose selectors coerces to a URL never throws
      once its page is fetched, and a group is never `undefined`: the column
      is `undefined` exactly when its page gives no document. */
  lemma GroupColumnValue(h: Host, reg: Registry, id: string, key: string, rest: Options)
    requires WellFormedRegistry(reg) && reg.itemColumns.Some? && Lookup(reg.itemColumns.value, key).Some?
    requires var f := Lookup(reg.itemColumns.value, key).value; !f.Leaf? && UrlFree(f)
    ensures var v := ColumnValue(h, reg, id, key, rest);
      && v.Ok?
      && (v.value.Undefined? <==> FetchDocument(h, reg.path, id + "/" + key, rest) == Ok(None))
  {
    var f := Lookup(reg.itemColumns.value, key).value;
    FetchDocumentCases(h, reg.path, id + "/" + key, rest);
    var d := FetchDocument(h, reg.path, id + "/" + key, rest);
    if d.Ok? && d.value.Some? {
      assert WellFormedField(f);
      UrlFreeFieldExtracts(h, d.value.value, f);
    }
  }

  /** What `fetchColumn` resolves to for each requested key, in order. */
  function ColumnValues(h: Host, reg: Registry, id: string, keys: seq<string>, rest: Options): (vs: seq<Result<Value, Error>>)
    requires WellFormedRegistry(reg)
    ensures |vs| == |keys| && forall i :: 0 <= i < |keys| ==> vs[i] == ColumnValue(h, reg, id, keys[i], rest)
  {
    seq(|keys|, i requires 0 <= i < |keys| => ColumnValue(h, reg, id, keys[i], rest))
  }

  /** The loop of `get` over the requested columns, given what each one
      resolves to: a value is stored under its key unless it is
      `undefined`; the first error aborts. */
  function MergedColumns(keys: seq<string>, values: seq<Result<Value, Error>>, fields: Record): Result<Record, Error>
    requires |values| == |keys|
  {
    if keys == [] then Ok(fields)
    else
      match MergedColumns(keys[..|keys| - 1], values[..|keys| - 1], fields)
      case Err(e) => Err(e)
      case Ok(acc) =>
        match values[|keys| - 1]
        case Err(e) => Err(e)
        case Ok(v) => if v.Undefined? then Ok(acc) else Ok(acc[keys[|keys| - 1] := v])
  }

  /** `get(id, options)` once the options are merged: `null` when the item
      page gives no document, else the item fields, with the requested
      columns added when the registry declares columns at all. */
  function Got(h: Host, reg: Registry, id: string, merged: Options): Result<Option<Record>, Error>
    requires WellFormedRegistry(reg)
  {
    var rest := WithoutColumns(merged);
    match FetchDocument(h, reg.path, id, rest)
    case Err(e) => Err(e)
    case Ok(None) => Ok(None)
    case Ok(Some(doc)) =>
      match Extracted(h, doc, reg.itemFields)
      case Err(e) => Err(e)
      case Ok(fields) =>
        if merged.columns.Some? && reg.itemColumns.Some? then
          var keys := merged.columns.value;
          match MergedColumns(keys, ColumnValues(h, reg, id, keys, rest), fields)
          case Err(e) => Err(e)
          case Ok(r) => Ok(Some(r))
        else Ok(Some(fields))
  }

  /** `v.id` of an extracted list entry. */
  function IdOf(r: Record): Value {
    if "id" in r then r["id"] else Undefined
  }

  /** The predicate `find` filters its results with, as written. */
  predicate IdKept(r: Record) {
    IdOf(r) != Null || IdOf(r) != Undefined
  }

  /** `results.filter(...)` with that predicate. */
  function KeptById(rs: seq<Record>): (kept: seq<Record>)
    ensures |kept| <= |rs|
  {
    if rs == [] then []
    else (if IdKept(rs[0]) then [rs[0]] else []) + KeptById(rs[1..])
  }

  /** The `id` filter of `find` keeps every result: no value is both `null`
      and `undefined`, so the disjunction always holds. */
  lemma {:induction false} KeptByIdKeepsAll(rs: seq<Record>)
    ensures KeptById(rs) == rs
  {
    if rs != [] {
      assert IdKept(rs[0]);
      KeptByIdKeepsAll(rs[1..]);
    }
  }

  /** The search path `find` requests: `?` and the serialised query; just
      `?` when no entry of the query is present. */
  function SearchPath(h: Host, query: Query.Query): (p: string)
    ensures |p| >= 1 && p[0] == '?'
    ensures p == "?" <==> Query.Serialised(query) == []
  {
    "?" + Query.QueryString(h, Query.Serialised(query))
  }

  /** `find(query, options)` once the options are merged: the validation
      error if any; `null` when the search page gives no document; else one
      record per `div.entry` node, filtered on `id`. */
  function Found(h: Host, reg: Registry, query: Query.Query, merged: Options): Result<Option<seq<Record>>, Error>
    requires WellFormedRegistry(reg)
  {
    match Query.Validation(h, reg.listQuery, query)
    case Fail(e) => Err(e)
    case Pass =>
      match FetchDocument(h, reg.path, SearchPath(h, query), merged)
      case Err(e) => Err(e)
      case Ok(None) => Ok(None)
      case Ok(Some(doc)) =>
        match ExtractedEach(h, h.querySelectorAll(doc, "div.entry"), reg.listFields)
        case Err(e) => Err(e)
        case Ok(rs) => Ok(Some(KeptById(rs)))
  }

  /** Once a requested column has thrown, the loop of `get` throws that
      error. */
  lemma {:induction false} MergedColumnsErrPersists(keys: seq<string>, values: seq<Result<Value, Error>>, fields: Record, i: nat)
    requires |values| == |keys| && i <= |keys|
    requires MergedColumns(keys[..i], values[..i], fields).Err?
    ensures MergedColumns(keys, values, fields) == MergedColumns(keys[..i], values[..i], fields)
    decreases |keys| - i
  {
    if i < |keys| {
      assert keys[..i + 1][..i] == keys[..i] && values[..i + 1][..i] == values[..i];
      MergedColumnsErrPersists(keys, values, fields, i + 1);
    } else {
      assert keys[..i] == keys && values[..i] == values;
    }
  }

  /** The column loop throws exactly when some requested column throws. */
  lemma {:induction false} MergedColumnsErr(keys: seq<string>, values: seq<Result<Value, Error>>, fields: Record)
    requires |values| == |keys|
    ensures MergedColumns(keys, values, fields).Err? <==> exists i :: 0 <= i < |keys| && values[i].Err?
  {
    if keys != [] {
      var n := |keys| - 1;
      var p, q := keys[..n], values[..n];
      assert forall i :: 0 <= i < n ==> q[i] == values[i];
      MergedColumnsErr(p, q, fields);
    }
  }

  /** The column loop keeps every item field, changes none whose key is not
      requested, and adds only requested keys whose value is not
      `undefined`. */
  lemma {:induction false} MergedColumnsKeys(keys: seq<string>, values: seq<Result<Value, Error>>, fields: Record)
    requires |values| == |keys|
    ensures var r := MergedColumns(keys, values, fields);
      r.Ok? ==>
        && fields.Keys <= r.value.Keys
        && (forall k | k in r.value && k !in fields ::
              exists i :: 0 <= i < |keys| && keys[i] == k && values[i].Ok? && !values[i].value.Undefined?)
        && (forall k | k in fields && k !in keys :: r.value[k] == fields[k])
  {
    if keys != [] {
      var n := |keys| - 1;
      var p, q := keys[..n], values[..n];
      assert forall i :: 0 <= i < n ==> p[i] == keys[i] && q[i] == values[i];
      assert forall k | k in p :: k in keys;
      MergedColumnsKeys(p, q, fields);
    }
  }

  /** After the column loop, every requested key whose value is not
      `undefined` holds that value, when a key repeated in the request
      resolves the same way each time (as `fetchColumn` does). */
  lemma {:induction false} MergedColumnsValues(keys: seq<string>, values: seq<Result<Value, Error>>, fields: Record)
    requires |values| == |keys|
    requires forall i, j :: 0 <= i < |keys| && 0 <= j < |keys| && keys[i] == keys[j] ==> values[i] == values[j]
    ensures var r := MergedColumns(keys, values, fields);
      r.Ok? ==>
        forall i :: 0 <= i < |keys| && values[i].Ok? && !values[i].value.Undefined? ==>
          keys[i] in r.value && r.value[keys[i]] == values[i].value
  {
    if keys != [] {
      var n := |keys| - 1;
      var p, q := keys[..n], values[..n];
      assert forall i :: 0 <= i < n ==> p[i] == keys[i] && q[i] == values[i];
      MergedColumnsValues(p, q, fields);
    }
  }

  /** `get` resolves `null` exactly when the item page gives no document. */
  lemma GotNullIff(h: Host, reg: Registry, id: string, merged: Options)
    requires WellFormedRegistry(reg)
    ensures var doc := FetchDocument(h, reg.path, id, WithoutColumns(merged));
      && (Got(h, reg, id, merged) == Ok(None) <==> doc == Ok(None))
      && (doc == Ok(None) <==>
            var response := h.fetch(Req(reg.path, id, WithoutColumns(merged)));
            !IsOk(response.status) || response.document.None?
            || h.querySelectorAll(response.document.value, ".parts__zero") != [])
  {
    FetchDocumentCases(h, reg.path, id, WithoutColumns(merged));
  }

  /** Every error the column loop throws is the error of one of the
      requested columns. */
  lemma {:induction false} MergedColumnsErrFrom(keys: seq<string>, values: seq<Result<Value, Error>>, fields: Record)
    requires |values| == |keys|
    ensures var r := MergedColumns(keys, values, fields);
      r.Err? ==> exists i :: 0 <= i < |keys| && values[i] == Err(r.error)
  {
    if keys != [] {
      var n := |keys| - 1;
      var p, q := keys[..n], values[..n];
      assert forall i :: 0 <= i < n ==> q[i] == values[i];
      MergedColumnsErrFrom(p, q, fields);
    }
  }

  /** `fetchColumn` throws only a URL failure: fetching the column page
      never throws, and extracting the column selector throws nothing
      else. */
  lemma ColumnValueError(h: Host, reg: Registry, id: string, key: string, rest: Options)
    requires WellFormedRegistry(reg)
    ensures var v := ColumnValue(h, reg, id, key, rest);
      v.Err? ==> IsUrlFailure(h, v.error)
  {
    if reg.itemColumns.Some? && Lookup(reg.itemColumns.value, key).Some? {
      var f := Lookup(reg.itemColumns.value, key).value;
      assert WellFormedField(f);
      FetchDocumentCases(h, reg.path, id + "/" + key, rest);
      var d := FetchDocument(h, reg.path, id + "/" + key, rest);
      if d.Ok? && d.value.Some? {
        FieldConforms(h, d.value.value, f);
      }
    }
  }

  /** `get` throws only when the item fields or a requested column throw,
      and that error is a URL failure. */
  lemma GotError(h: Host, reg: Registry, id: string, merged: Options)
    requires WellFormedRegistry(reg)
    ensures var r := Got(h, reg, id, merged);
      r.Err? ==> IsUrlFailure(h, r.error)
  {
    var rest := WithoutColumns(merged);
    FetchDocumentCases(h, reg.path, id, rest);
    var d := FetchDocument(h, reg.path, id, rest);
    if d.Ok? && d.value.Some? {
      ShapeConforms(h, d.value.value, reg.itemFields);
      var x := Extracted(h, d.value.value, reg.itemFields);
      if x.Ok? && merged.columns.Some? && reg.itemColumns.Some? {
        var keys := merged.columns.value;
        var values := ColumnValues(h, reg, id, keys, rest);
        MergedColumnsErrFrom(keys, values, x.value);
        var m := MergedColumns(keys, values, x.value);
        if m.Err? {
          var i :| 0 <= i < |keys| && values[i] == Err(m.error);
          ColumnValueError(h, reg, id, keys[i], rest);
        }
      }
    }
  }

  /** The record `get` resolves: without `columns`, or for a registry with no
      columns, exactly the item fields extracted from the item page, each
      conforming to its selector; with `columns`, those fields, unchanged
      where no column of the same key is requested, plus only keys that are
      requested and declared as columns. */
  lemma GotRecord(h: Host, reg: Registry, id: string, merged: Options)
    requires WellFormedRegistry(reg)
    ensures var r, doc := Got(h, reg, id, merged), FetchDocument(h, reg.path, id, WithoutColumns(merged));
      r.Ok? && r.value.Some? ==>
        && doc.Ok? && doc.value.Some?
        && Extracted(h, doc.value.value, reg.itemFields).Ok?
        && var fields := Extracted(h, doc.value.value, reg.itemFields).value;
        && RecordConforms(fields, reg.itemFields)
        && KeysOf(reg.itemFields) <= r.value.value.Keys
        && (merged.columns.None? || reg.itemColumns.None? ==> r.value.value == fields)
        && (forall k | k in r.value.value && k !in fields ::
              k in ColumnKeys(reg) && merged.columns.Some? && k in merged.columns.value)
        && (forall k | k in fields && (merged.columns.None? || k !in merged.columns.value) ::
              r.value.value[k] == fields[k])
  {
    var r, doc := Got(h, reg, id, merged), FetchDocument(h, reg.path, id, WithoutColumns(merged));
    if r.Ok? && r.value.Some? {
      ShapeConforms(h, doc.value.value, reg.itemFields);
      ExtractedEntries(h, doc.value.value, reg.itemFields);
      if merged.columns.Some? && reg.itemColumns.Some? {
        var fields := Extracted(h, doc.value.value, reg.itemFields).value;
        var keys := merged.columns.value;
        var values := ColumnValues(h, reg, id, keys, WithoutColumns(merged));
        MergedColumnsKeys(keys, values, fields);
        forall k | k in r.value.value && k !in fields
          ensures k in ColumnKeys(reg) && k in keys
        {
          var i :| 0 <= i < |keys| && keys[i] == k && values[i].Ok? && !values[i].value.Undefined?;
        }
      }
    }
  }

  /** The keys of a resolved `get` lie between the item fields and the keys
      `InferItem<R, C>` promises: with `C` the record has no column outside
      `C`; without `C` the type promises every declared column, while the
      record holds none of them. */
  lemma GotWithinInferItem(h: Host, reg: Registry, id: string, merged: Options)
    requires WellFormedRegistry(reg)
    requires merged.columns.Some? ==> forall i :: 0 <= i < |merged.columns.value| ==> merged.columns.value[i] in ColumnKeys(reg)
    ensures var r := Got(h, reg, id, merged);
      r.Ok? && r.value.Some? ==>
        && KeysOf(reg.itemFields) <= r.value.value.Keys <= InferItemKeys(reg, merged.columns)
        && (merged.columns.None? ==> r.value.value.Keys == KeysOf(reg.itemFields))
  {
    GotRecord(h, reg, id, merged);
    var r := Got(h, reg, id, merged);
    if r.Ok? && r.value.Some? {
      var doc := FetchDocument(h, reg.path, id, WithoutColumns(merged)).value.value;
      ExtractedEntries(h, doc, reg.itemFields);
      var keys := InferItemKeys(reg, merged.columns);
      forall k | k in r.value.value
        ensures k in keys
      {
        if merged.columns.Some? && k !in KeysOf(reg.itemFields) {
          var i :| 0 <= i < |merged.columns.value| && merged.columns.value[i] == k;
        }
      }
    }
  }

  /** With `columns`, on a registry that declares columns, `get` throws
      exactly when a requested column throws, and every requested column
      that resolves to a value holds that value. */
  lemma GotColumns(h: Host, reg: Registry, id: string, merged: Options, fields: Record)
    requires WellFormedRegistry(reg)
    requires merged.columns.Some? && reg.itemColumns.Some?
    requires var doc := FetchDocument(h, reg.path, id, WithoutColumns(merged));
      doc.Ok? && doc.value.Some? && Extracted(h, doc.value.value, reg.itemFields) == Ok(fields)
    ensures var r, keys := Got(h, reg, id, merged), merged.columns.value;
      var values := ColumnValues(h, reg, id, keys, WithoutColumns(merged));
      && (r.Err? <==> exists i :: 0 <= i < |keys| && values[i].Err?)
      && (r.Ok? ==>
            forall i :: 0 <= i < |keys| && values[i].Ok? && !values[i].value.Undefined? ==>
              r.value.Some? && keys[i] in r.value.value && r.value.value[keys[i]] == values[i].value)
  {
    var keys, rest := merged.columns.value, WithoutColumns(merged);
    var values := ColumnValues(h, reg, id, keys, rest);
    MergedColumnsErr(keys, values, fields);
    MergedColumnsValues(keys, values, fields);
  }

  /** `find` throws the validation error, or else a URL failure of one of
      the extracted entries: fetching the search page never throws. */
  lemma FoundError(h: Host, reg: Registry, query: Query.Query, merged: Options)
    requires WellFormedRegistry(reg)
    ensures var r, v := Found(h, reg, query, merged), Query.Validation(h, reg.listQuery, query);
      r.Err? ==> v == Fail(r.error) || (v.Pass? && IsUrlFailure(h, r.error))
  {
    var path := SearchPath(h, query);
    FetchDocumentCases(h, reg.path, path, merged);
    var d := FetchDocument(h, reg.path, path, merged);
    if d.Ok? && d.value.Some? {
      EachConforms(h, h.querySelectorAll(d.value.value, "div.entry"), reg.listFields);
    }
  }

  /** `find` throws the validation error before anything is fetched, whatever
      the options are. */
  lemma FoundValidatesFirst(h: Host, reg: Registry, query: Query.Query, merged: Options, e: Error)
    requires WellFormedRegistry(reg)
    requires Query.Validation(h, reg.listQuery, query) == Fail(e)
    ensures Found(h, reg, query, merged) == Err(e)
  {
  }

  /** A `find` that resolves a list validated the query, fetched the search
      page for the serialised query, and holds one record per `div.entry`
      node in document order, each extracted against the list fields and
      conforming to them. */
  lemma FoundRecords(h: Host, reg: Registry, query: Query.Query, merged: Options)
    requires WellFormedRegistry(reg)
    ensures var r, doc := Found(h, reg, query, merged), FetchDocument(h, reg.path, SearchPath(h, query), merged);
      r.Ok? && r.value.Some? ==>
        && Query.Validation(h, reg.listQuery, query) == Pass
        && doc.Ok? && doc.value.Some?
        && var entries := h.querySelectorAll(doc.value.value, "div.entry");
        && |r.value.value| == |entries|
        && forall i :: 0 <= i < |entries| ==>
             && Extracted(h, entries[i], reg.listFields) == Ok(r.value.value[i])
             && RecordConforms(r.value.value[i], reg.listFields)
  {
    var r, doc := Found(h, reg, query, merged), FetchDocument(h, reg.path, SearchPath(h, query), merged);
    if r.Ok? && r.value.Some? {
      var entries := h.querySelectorAll(doc.value.value, "div.entry");
      var rs := ExtractedEach(h, entries, reg.listFields);
      ExtractedEachSpec(h, entries, reg.listFields);
      KeptByIdKeepsAll(rs.value);
      EachConforms(h, entries, reg.listFields);
    }
  }

  /** The JavaScript object an endpoint's `options` refers to; `find` and
      `get` write into it through `Object.assign`. */
  class SharedOptions {
    var value: Options

    constructor(o: Options)
      ensures value == o
    {
      value := o;
    }
  }

  /** `Endpoint<R>`: a registry, the foreign collaborators, and the optional
      stored options. */
  class Endpoint {
    const registry: Registry
    const host: Host
    const options: SharedOptions?

    constructor(registry: Registry, host: Host, options: SharedOptions?)
      requires WellFormedRegistry(registry)
      ensures this.registry == registry && this.host == host && this.options == options
    {
      this.registry := registry;
      this.host := host;
      this.options := options;
    }

    /** The options the endpoint starts from: the stored object's content,
        or `{}` when it has none. */
    function Base(): Options
      reads options
    {
      if options == null then Options() else options.value
    }

    /** `Object.assign(this.options ?? {}, o)`: the merged options, written
        back into the stored object when there is one. */
    method Merge(o: Options) returns (merged: Options)
      modifies options
      ensures merged == Assign(old(Base()), o)
      ensures options != null ==> options.value == merged
    {
      if options == null {
        merged := Assign(Options(), o);
      } else {
        options.value := Assign(options.value, o);
        merged := options.value;
      }
    }

    /** `extract(node, s)`: walks the entries in order, storing each
        field's value under its key, and stops at the first error. */
    method Extract(node: Node, s: Shape) returns (r: Result<Record, Error>)
      requires WellFormedShape(s)
      ensures r == Extracted(host, node, s)
      decreases s, 0
    {
      var out: Record := map[];
      var i := 0;
      while i < |s|
        invariant 0 <= i <= |s|
        invariant WellFormedShape(s[..i])
        invariant Extracted(host, node, s[..i]) == Ok(out)
      {
        var entry := s[i];
        ExtractedStep(host, node, s, i, out);
        var v := ExtractField(node, entry.field);
        if v.Err? {
          ExtractedErrPersists(host, node, s, i + 1);
          return Err(v.error);
        }
        out := out[entry.key := v.value];
        i := i + 1;
      }
      assert s[..i] == s;
      return Ok(out);
    }

    /** The body of `extract`'s loop for one entry: a nested group is
        extracted on the same node or once per `root` node; an array
        selector maps every matching node; a scalar reads the first match
        and is `undefined` without one. */
    method ExtractField(node: Node, f: Field) returns (r: Result<Value, Error>)
      requires WellFormedField(f)
      ensures r == ExtractedField(host, node, f)
      decreases f, 0
    {
      match f
      case Object(sh) =>
        var x := Extract(node, sh);
        if x.Err? {
          return Err(x.error);
        }
        return Ok(Obj(x.value));
      case ObjectArray(sh) =>
        var nodes := host.querySelectorAll(node, RootSelector(sh).selector);
        var x := ExtractEach(nodes, sh);
        if x.Err? {
          return Err(x.error);
        }
        return Ok(List(Objs(x.value)));
      case Leaf(sel) =>
        if sel.ty.isArray {
          var nodes := host.querySelectorAll(node, sel.selector);
          var vs := LeafValues(host, nodes, sel);
          if vs.Err? {
            return Err(vs.error);
          }
          return Ok(List(vs.value));
        }
        var n := QuerySelector(host, node, sel.selector);
        if n.None? {
          return Ok(Undefined);
        }
        var raw := RawValue(host, n.value, sel);
        var extracted := ApplyRegex(host, raw, sel);
        return Coerce(host, extracted, sel.ty.base);
    }

    /** `nodes.map((n) => this.extract(n, s))`. */
    method ExtractEach(nodes: seq<Node>, s: Shape) returns (r: Result<seq<Record>, Error>)
      requires WellFormedShape(s)
      ensures r == ExtractedEach(host, nodes, s)
      decreases s, 1
    {
      var out: seq<Record> := [];
      var i := 0;
      while i < |nodes|
        invariant 0 <= i <= |nodes|
        invariant ExtractedEach(host, nodes[..i], s) == Ok(out)
      {
        assert nodes[..i + 1][..i] == nodes[..i];
        var x := Extract(nodes[i], s);
        if x.Err? {
          EachErrPersists(host, nodes, s, i + 1);
          return Err(x.error);
        }
        out := out + [x.value];
        i := i + 1;
      }
      assert nodes[..i] == nodes;
      return Ok(out);
    }

    /** `validate(query)`: every query key must be known to the schema,
        then every schema entry is checked in order. */
    method Validate(query: Query.Query) returns (r: Outcome<Error>)
      ensures r == Query.Validation(host, registry.listQuery, query)
    {
      var unknown := ScanKeys(query);
      if unknown.Some? {
        return Fail(UnknownQueryParameter(unknown.value));
      }
      var violation := ScanSchema(query);
      if violation.Some? {
        return Fail(violation.value);
      }
      return Pass;
    }

    /** The first loop of `validate`: the first query key the schema does
        not declare. */
    method ScanKeys(query: Query.Query) returns (unknown: Option<string>)
      ensures unknown == Query.FirstUnknown(registry.listQuery, query)
    {
      var schema := registry.listQuery;
      var i := 0;
      while i < |query|
        invariant 0 <= i <= |query|
        invariant Query.FirstUnknown(schema, query[..i]).None?
      {
        assert query[..i + 1][..i] == query[..i];
        if !Query.InSchema(schema, query[i].key) {
          Query.FirstUnknownPersists(schema, query, i + 1);
          return Some(query[i].key);
        }
        i := i + 1;
      }
      assert query[..i] == query;
      return None;
    }

    /** The second loop of `validate`: the first schema entry the query
        violates, and how. */
    method ScanSchema(query: Query.Query) returns (violation: Option<Error>)
      ensures violation == Query.FirstViolation(host, registry.listQuery, query)
    {
      var schema := registry.listQuery;
      var j := 0;
      while j < |schema|
        invariant 0 <= j <= |schema|
        invariant Query.FirstViolation(host, schema[..j], query).None?
      {
        assert schema[..j + 1][..j] == schema[..j];
        var param := schema[j];
        var value := Query.Get(query, param.key);
        if param.shape.required && Query.IsMissing(value) {
          Query.FirstViolationPersists(host, schema, query, j + 1);
          return Some(MissingQueryParameter(param.key));
        }
        if !Query.IsMissing(value) {
          if !Query.IsValid(host, value, param.shape.ty) {
            Query.FirstViolationPersists(host, schema, query, j + 1);
            return Some(QueryTypeMismatch(param.key, param.shape.ty));
          } else if param.shape.pattern.Some? && host.exec(param.shape.pattern.value, Query.Stringify(value)).None? {
            Query.FirstViolationPersists(host, schema, query, j + 1);
            return Some(QueryPatternMismatch(param.key));
          }
        }
        j := j + 1;
      }
      assert schema[..j] == schema;
      return None;
    }

    /** `fetchColumn(id, key, rest)`. */
    method FetchColumn(id: string, key: string, rest: Options) returns (r: Result<Value, Error>)
      requires WellFormedRegistry(registry)
      ensures r == ColumnValue(host, registry, id, key, rest)
    {
      if registry.itemColumns.None? {
        return Ok(Undefined);
      }
      var selector := Lookup(registry.itemColumns.value, key);
      if selector.None? {
        return Ok(Undefined);
      }
      var f := selector.value;
      assert WellFormedField(f);
      var document := FetchDocument(host, registry.path, id + "/" + key, rest);
      if document.Err? {
        return Err(document.error);
      }
      if document.value.None? {
        return Ok(Undefined);
      }
      var doc := document.value.value;
      match f
      case Leaf(_) =>
        var x := Extract(doc, [Entry("value", f)]);
        SingleEntry(host, doc, "value", f);
        if x.Err? {
          return Err(x.error);
        }
        return Ok(x.value["value"]);
      case Object(sh) =>
        var x := Extract(doc, sh);
        if x.Err? {
          return Err(x.error);
        }
        return Ok(Obj(x.value));
      case ObjectArray(sh) =>
        var nodes := host.querySelectorAll(doc, RootSelector(sh).selector);
        var x := ExtractEach(nodes, sh);
        if x.Err? {
          return Err(x.error);
        }
        return Ok(List(Objs(x.value)));
    }

    /** `get(id, o)`: merges the options into the stored ones, fetches the
        item page without `columns`, extracts the item fields and then each
        requested column in order. */
    method Get(id: string, o: Options) returns (r: Result<Option<Record>, Error>)
      requires WellFormedRegistry(registry)
      modifies options
      ensures r == Got(host, registry, id, Assign(old(Base()), o))
      ensures options != null ==> options.value == Assign(old(Base()), o)
    {
      var merged := Merge(o);
      var rest := WithoutColumns(merged);
      var document := FetchDocument(host, registry.path, id, rest);
      if document.Err? {
        return Err(document.error);
      }
      if document.value.None? {
        return Ok(None);
      }
      var fields := Extract(document.value.value, registry.itemFields);
      if fields.Err? {
        return Err(fields.error);
      }
      if merged.columns.Some? && registry.itemColumns.Some? {
        var out := AddColumns(id, merged.columns.value, rest, fields.value);
        if out.Err? {
          return Err(out.error);
        }
        return Ok(Some(out.value));
      }
      return Ok(Some(fields.value));
    }

    /** The loop of `get` over the requested columns. */
    method AddColumns(id: string, keys: seq<string>, rest: Options, fields: Record) returns (r: Result<Record, Error>)
      requires WellFormedRegistry(registry)
      ensures r == MergedColumns(keys, ColumnValues(host, registry, id, keys, rest), fields)
    {
      ghost var values := ColumnValues(host, registry, id, keys, rest);
      var out := fields;
      var i := 0;
      while i < |keys|
        invariant 0 <= i <= |keys|
        invariant MergedColumns(keys[..i], values[..i], fields) == Ok(out)
      {
        assert keys[..i + 1][..i] == keys[..i] && values[..i + 1][..i] == values[..i];
        var value := FetchColumn(id, keys[i], rest);
        assert value == values[i];
        if value.Err? {
          MergedColumnsErrPersists(keys, values, fields, i + 1);
          return Err(value.error);
        }
        if !value.value.Undefined? {
          out := out[keys[i] := value.value];
        }
        i := i + 1;
      }
      assert keys[..i] == keys && values[..i] == values;
      return Ok(out);
    }

    /** `find(query, o)`: validates before touching the options, then
        merges them, fetches the search page and extracts every entry. */
    method Find(query: Query.Query, o: Options) returns (r: Result<Option<seq<Record>>, Error>)
      requires WellFormedRegistry(registry)
      modifies options
      ensures r == Found(host, registry, query, Assign(old(Base()), o))
      ensures Query.Validation(host, registry.listQuery, query).Fail? && options != null ==>
                options.value == old(options.value)
      ensures Query.Validation(host, registry.listQuery, query).Pass? && options != null ==>
                options.value == Assign(old(Base()), o)
    {
      var validation := Validate(query);
      if validation.Fail? {
        return Err(validation.error);
      }
      var parameters := Query.QueryString(host, Query.Serialised(query));
      var merged := Merge(o);
      var document := FetchDocument(host, registry.path, "?" + parameters, merged);
      if document.Err? {
        return Err(document.error);
      }
      if document.value.None? {
        return Ok(None);
      }
      var entries := host.querySelectorAll(document.value.value, "div.entry");
      var results := ExtractEach(entries, registry.listFields);
      if results.Err? {
        return Err(results.error);
      }
      return Ok(Some(KeptById(results.value)));
    }
  }

  /** `Lodestone`: the five endpoints, all holding the options object the
      caller passes to the constructor, so `Object.assign` in `get` and
      `find` writes into the caller's own object. `new Lodestone()` is
      `Lodestone(host, new SharedOptions(Options()))`. */
  class Lodestone {
    const shared: SharedOptions
    const character: Endpoint
    const cwls: Endpoint
    const freecompany: Endpoint
    const linkshell: Endpoint
    const pvpteam: Endpoint

    constructor(host: Host, options: SharedOptions)
      ensures shared == options
      ensures character.registry == Registries.Character && character.options == options
      ensures cwls.registry == Registries.Cwls && cwls.options == options
      ensures freecompany.registry == Registries.Freecompany && freecompany.options == options
      ensures linkshell.registry == Registries.Linkshell && linkshell.options == options
      ensures pvpteam.registry == Registries.PvpTeam && pvpteam.options == options
      ensures character.host == host && cwls.host == host && freecompany.host == host
      ensures linkshell.host == host && pvpteam.host == host
    {
      Registries.CharacterWellFormed();
      Registries.CwlsWellFormed();
      Registries.FreecompanyWellFormed();
      Registries.LinkshellWellFormed();
      Registries.PvpTeamWellFormed();
      shared := options;
      character := new Endpoint(Registries.Character, host, options);
      cwls := new Endpoint(Registries.Cwls, host, options);
      freecompany := new Endpoint(Registries.Freecompany, host, options);
      linkshell := new Endpoint(Registries.Linkshell, host, options);
      pvpteam := new Endpoint(Registries.PvpTeam, host, options);
    }
  }
}

/** The query side of `find` in `src/lib/endpoint.ts`: `isMissing`,
    `isValid`, `validate` as the rule sequence it runs, and the
    serialisation of a query into URL parameters; together with
    `InferQuery`, the type a caller's query is checked against. */
module Query {
  import opened Wrappers
  import opened Schema
  import opened Runtime
  import opened Errors

  /** The JavaScript values a query parameter can hold. `QNumber(t)` is a
      number whose `String` is `t`, `QDate(t)` a `Date` whose `String` is
      `t`, `QUrl(t)` a `URL` whose `href` is `t`. */
  datatype QueryValue =
    | Undefined
    | Null
    | QBool(b: bool)
    | QNumber(repr: string)
    | QString(s: string)
    | QDate(repr: string)
    | QUrl(href: string)

  datatype QueryEntry = QueryEntry(key: string, value: QueryValue)

  /** A query object as `Object.entries` lists it: own keys in order. */
  type Query = seq<QueryEntry>

  /** The own keys of a query object are distinct. */
  predicate DistinctQueryKeys(q: Query) {
    forall i, j :: 0 <= i < j < |q| ==> q[i].key != q[j].key
  }

  /** `query[key]`: the value of the entry with that key, `undefined` when
      there is none. */
  function Get(q: Query, key: string): (v: QueryValue)
    ensures (forall i :: 0 <= i < |q| ==> q[i].key != key) ==> v == Undefined
  {
    if q == [] then Undefined
    else if q[0].key == key then q[0].value
    else Get(q[1..], key)
  }

  /** A value that is not `undefined` comes from an entry with the key. */
  lemma {:induction false} GetEntry(q: Query, key: string)
    ensures Get(q, key) != Undefined ==> exists i :: 0 <= i < |q| && q[i] == QueryEntry(key, Get(q, key))
  {
    if q != [] && q[0].key != key {
      GetEntry(q[1..], key);
      if Get(q[1..], key) != Undefined {
        var i :| 0 <= i < |q[1..]| && q[1..][i] == QueryEntry(key, Get(q[1..], key));
        assert q[i + 1] == q[1..][i];
      }
    }
  }

  /** With distinct keys, `query[key]` is the value of the entry that has
      the key. */
  lemma {:induction false} GetDistinct(q: Query, i: nat)
    requires DistinctQueryKeys(q) && i < |q|
    ensures Get(q, q[i].key) == q[i].value
  {
    if i > 0 {
      assert q[0].key != q[i].key;
      assert q[1..][i - 1] == q[i];
      GetDistinct(q[1..], i - 1);
    }
  }

  /** `isMissing`: `undefined` or `null`. */
  predicate IsMissing(v: QueryValue) {
    v.Undefined? || v.Null?
  }

  /** `String(value)`. */
  function Stringify(v: QueryValue): string {
    match v
    case Undefined => "undefined"
    case Null => "null"
    case QBool(b) => if b then "true" else "false"
    case QNumber(t) => t
    case QString(s) => s
    case QDate(t) => t
    case QUrl(t) => t
  }

  /** `!Number.isNaN(Number(value))`: `Number` of a boolean or `null` is 0 or
      1, of `undefined` is NaN, of a date its time value (NaN exactly for an
      invalid date), and of a string or URL the number its text spells. */
  predicate NumberLike(h: Host, v: QueryValue) {
    match v
    case Undefined => false
    case Null => true
    case QBool(_) => true
    case QNumber(_) => true
    case QString(s) => h.isNumber(s)
    case QDate(t) => h.isDate(t)
    case QUrl(t) => h.isNumber(t)
  }

  /** `isValid`: a number or anything `Number` turns into a number; only a
      boolean for boolean; a date or anything `Date.parse` accepts as
      text; anything whose text `new URL` accepts; only a string otherwise. */
  predicate IsValid(h: Host, v: QueryValue, ty: Primitive) {
    match ty
    case Number => v.QNumber? || NumberLike(h, v)
    case Boolean => v.QBool?
    case Date => v.QDate? || h.isDate(Stringify(v))
    case Url => h.isUrl(Stringify(v))
    case String => v.QString?
  }

  /** The cases of `isValid`: `boolean` and `string` accept only their own
      kind; `number` accepts any number, boolean or `null`, never
      `undefined`, and exactly the strings `Number` reads as a number;
      `date` accepts a date or any value whose text `Date.parse` reads;
      `url` accepts exactly the values whose text `new URL` accepts. */
  lemma IsValidCases(h: Host, v: QueryValue)
    ensures IsValid(h, v, Boolean) <==> v.QBool?
    ensures IsValid(h, v, String) <==> v.QString?
    ensures v.QNumber? || v.QBool? || v.Null? ==> IsValid(h, v, Number)
    ensures v.Undefined? ==> !IsValid(h, v, Number)
    ensures v.QString? ==> (IsValid(h, v, Number) <==> h.isNumber(v.s))
    ensures IsValid(h, v, Date) <==> v.QDate? || h.isDate(Stringify(v))
    ensures IsValid(h, v, Url) <==> h.isUrl(Stringify(v))
  {
  }

  /** The properties every object inherits from `Object.prototype`, which
      the `in` operator finds on the schema object too. */
  const PrototypeKeys: set<string> := {
    "constructor", "hasOwnProperty", "isPrototypeOf", "propertyIsEnumerable",
    "toLocaleString", "toString", "valueOf", "__proto__",
    "__defineGetter__", "__defineSetter__", "__lookupGetter__", "__lookupSetter__"}

  /** `key in schema`: a declared key or an inherited one. */
  predicate InSchema(schema: seq<QueryParam>, key: string) {
    Declares(schema, key) || key in PrototypeKeys
  }

  /** The first query key the schema does not know, scanning in order. */
  function FirstUnknown(schema: seq<QueryParam>, q: Query): Option<string> {
    if q == [] then None
    else
      match FirstUnknown(schema, q[..|q| - 1])
      case Some(k) => Some(k)
      case None => if InSchema(schema, q[|q| - 1].key) then None else Some(q[|q| - 1].key)
  }

  /** What one schema entry makes of the query: missing and required, then
      skipped when missing, then the type test, then the pattern test on the
      value's text (a regex `test` succeeds exactly when there is a match). */
  function Violation(h: Host, p: QueryParam, q: Query): Option<Error> {
    var v := Get(q, p.key);
    if p.shape.required && IsMissing(v) then Some(MissingQueryParameter(p.key))
    else if IsMissing(v) then None
    else if !IsValid(h, v, p.shape.ty) then Some(QueryTypeMismatch(p.key, p.shape.ty))
    else if p.shape.pattern.Some? && h.exec(p.shape.pattern.value, Stringify(v)).None? then
      Some(QueryPatternMismatch(p.key))
    else None
  }

  /** The first violation, walking the schema entries in order. */
  function FirstViolation(h: Host, schema: seq<QueryParam>, q: Query): Option<Error> {
    if schema == [] then None
    else
      match FirstViolation(h, schema[..|schema| - 1], q)
      case Some(e) => Some(e)
      case None => Violation(h, schema[|schema| - 1], q)
  }

  /** `validate`: unknown keys first, then the schema entries. */
  function Validation(h: Host, schema: seq<QueryParam>, q: Query): Outcome<Error> {
    match FirstUnknown(schema, q)
    case Some(k) => Fail(UnknownQueryParameter(k))
    case None =>
      match FirstViolation(h, schema, q)
      case Some(e) => Fail(e)
      case None => Pass
  }

  /** Once a prefix has an unknown key, the longer scan reports that key. */
  lemma {:induction false} FirstUnknownPersists(schema: seq<QueryParam>, q: Query, i: nat)
    requires i <= |q| && FirstUnknown(schema, q[..i]).Some?
    ensures FirstUnknown(schema, q) == FirstUnknown(schema, q[..i])
    decreases |q| - i
  {
    if i < |q| {
      assert q[..i + 1][..i] == q[..i];
      FirstUnknownPersists(schema, q, i + 1);
    } else {
      assert q[..i] == q;
    }
  }

  lemma {:induction false} FirstViolationPersists(h: Host, schema: seq<QueryParam>, q: Query, i: nat)
    requires i <= |schema| && FirstViolation(h, schema[..i], q).Some?
    ensures FirstViolation(h, schema, q) == FirstViolation(h, schema[..i], q)
    decreases |schema| - i
  {
    if i < |schema| {
      assert schema[..i + 1][..i] == schema[..i];
      FirstViolationPersists(h, schema, q, i + 1);
    } else {
      assert schema[..i] == schema;
    }
  }

  /** No unknown key is found exactly when every key is in the schema, and
      otherwise the one found is the first key that is not. */
  lemma {:induction false} FirstUnknownSpec(schema: seq<QueryParam>, q: Query)
    ensures FirstUnknown(schema, q).None? <==> forall i :: 0 <= i < |q| ==> InSchema(schema, q[i].key)
    ensures FirstUnknown(schema, q).Some? ==>
              exists i :: 0 <= i < |q| && q[i].key == FirstUnknown(schema, q).value && !InSchema(schema, q[i].key)
                && forall j :: 0 <= j < i ==> InSchema(schema, q[j].key)
  {
    if q != [] {
      var p := q[..|q| - 1];
      assert forall i :: 0 <= i < |p| ==> p[i] == q[i];
      FirstUnknownSpec(schema, p);
    }
  }

  lemma {:induction false} FirstViolationSpec(h: Host, schema: seq<QueryParam>, q: Query)
    ensures FirstViolation(h, schema, q).None? <==> forall i :: 0 <= i < |schema| ==> Violation(h, schema[i], q).None?
    ensures FirstViolation(h, schema, q).Some? ==>
              exists i :: 0 <= i < |schema| && Violation(h, schema[i], q) == FirstViolation(h, schema, q)
                && forall j :: 0 <= j < i ==> Violation(h, schema[j], q).None?
  {
    if schema != [] {
      var p := schema[..|schema| - 1];
      assert forall i :: 0 <= i < |p| ==> p[i] == schema[i];
      FirstViolationSpec(h, p, q);
    }
  }

  /** A query passes exactly when every key is in the schema and every
      schema entry is satisfied: a required entry is present and not
      `null`, and a present value has the entry's type and matches its
      pattern. */
  lemma ValidationPassIff(h: Host, schema: seq<QueryParam>, q: Query)
    ensures Validation(h, schema, q) == Pass <==>
      && (forall i :: 0 <= i < |q| ==> InSchema(schema, q[i].key))
      && forall j :: 0 <= j < |schema| ==>
           var p, v := schema[j], Get(q, schema[j].key);
           && (p.shape.required ==> !IsMissing(v))
           && (!IsMissing(v) ==>
                 && IsValid(h, v, p.shape.ty)
                 && (p.shape.pattern.Some? ==> h.exec(p.shape.pattern.value, Stringify(v)).Some?))
  {
    FirstUnknownSpec(schema, q);
    FirstViolationSpec(h, schema, q);
  }

  /** Unknown keys are reported before anything else: the first key not in
      the schema is the error, whatever the values. */
  lemma UnknownReportedFirst(h: Host, schema: seq<QueryParam>, q: Query, i: nat)
    requires i < |q| && !InSchema(schema, q[i].key)
    requires forall j :: 0 <= j < i ==> InSchema(schema, q[j].key)
    ensures Validation(h, schema, q) == Fail(UnknownQueryParameter(q[i].key))
  {
    FirstUnknownSpec(schema, q);
  }

  /** The empty query fails on the first required schema entry, whatever
      the other entries demand. */
  lemma EmptyQueryMissing(h: Host, schema: seq<QueryParam>, i: nat)
    requires i < |schema| && schema[i].shape.required
    requires forall j :: 0 <= j < i ==> !schema[j].shape.required
    ensures Validation(h, schema, []) == Fail(MissingQueryParameter(schema[i].key))
  {
    var p := schema[..i];
    assert forall j :: 0 <= j < i ==> p[j] == schema[j];
    FirstViolationSpec(h, p, []);
    assert schema[..i + 1][..i] == p && schema[..i + 1][i] == schema[i];
    FirstViolationPersists(h, schema, [], i + 1);
  }

  /** The empty string satisfies `required`: a required string parameter
      without a pattern accepts `""`. */
  lemma EmptyStringSatisfiesRequired(h: Host, key: string, q: Query)
    requires Get(q, key) == QString("")
    ensures Violation(h, QueryParam(key, QueryShape(String, required := true)), q) == None
  {
  }

  /** Each value of `Primitives[ty]`, which is what `InferQuery` admits. */
  predicate HasType(v: QueryValue, ty: Primitive) {
    match ty
    case Boolean => v.QBool?
    case Number => v.QNumber?
    case String => v.QString?
    case Date => v.QDate?
    case Url => v.QUrl?
  }

  /** The declared type of a key: its first schema entry. */
  function TypeOf(schema: seq<QueryParam>, key: string): Option<Primitive> {
    if schema == [] then None
    else if schema[0].key == key then Some(schema[0].shape.ty)
    else TypeOf(schema[1..], key)
  }

  /** `InferQuery<R>`: only declared keys, each optional key absent or
      `undefined` or of its type, each required key present with a value of
      its type. */
  predicate Typed(schema: seq<QueryParam>, q: Query) {
    && (forall i :: 0 <= i < |q| ==>
          && TypeOf(schema, q[i].key).Some?
          && (q[i].value.Undefined? || HasType(q[i].value, TypeOf(schema, q[i].key).value)))
    && forall j :: 0 <= j < |schema| && schema[j].shape.required ==>
         !Get(q, schema[j].key).Undefined?
  }

  lemma {:induction false} TypeOfDeclared(schema: seq<QueryParam>, key: string)
    ensures TypeOf(schema, key).Some? <==> Declares(schema, key)
    ensures TypeOf(schema, key).Some? ==>
              forall j :: 0 <= j < |schema| && schema[j].key == key && (forall k :: 0 <= k < j ==> schema[k].key != key) ==>
                TypeOf(schema, key).value == schema[j].shape.ty
  {
    if schema != [] {
      TypeOfDeclared(schema[1..], key);
      assert forall j :: 1 <= j < |schema| ==> schema[1..][j - 1] == schema[j];
      if !Declares(schema, key) {
        assert !Declares(schema[1..], key);
      }
    }
  }

  /** A query of the inferred type can fail validation only on a pattern,
      or on the `url` type test (which `new URL` decides), never on a
      missing, unknown or otherwise mistyped parameter. */
  lemma TypedQueryFailsOnlyOnPattern(h: Host, schema: seq<QueryParam>, q: Query)
    requires forall i, j :: 0 <= i < j < |schema| ==> schema[i].key != schema[j].key
    requires Typed(schema, q)
    ensures Validation(h, schema, q) == Pass
            || Validation(h, schema, q).error.QueryPatternMismatch?
            || (Validation(h, schema, q).error.QueryTypeMismatch? && Validation(h, schema, q).error.ty == Url)
  {
    forall i | 0 <= i < |q|
      ensures InSchema(schema, q[i].key)
    {
      TypeOfDeclared(schema, q[i].key);
    }
    FirstUnknownSpec(schema, q);
    FirstViolationSpec(h, schema, q);
    var r := FirstViolation(h, schema, q);
    if r.Some? {
      var j :| 0 <= j < |schema| && Violation(h, schema[j], q) == r;
      TypedViolation(h, schema, q, j);
    }
  }

  /** What one schema entry can make of a query of the inferred type. */
  lemma TypedViolation(h: Host, schema: seq<QueryParam>, q: Query, j: nat)
    requires forall i, k :: 0 <= i < k < |schema| ==> schema[i].key != schema[k].key
    requires Typed(schema, q) && j < |schema|
    ensures var r := Violation(h, schema[j], q);
      r.None? || r.value.QueryPatternMismatch? || (r.value.QueryTypeMismatch? && r.value.ty == Url)
  {
    var p, v := schema[j], Get(q, schema[j].key);
    GetEntry(q, p.key);
    if p.shape.required {
      assert !v.Undefined?;
    }
    if !IsMissing(v) {
      var i :| 0 <= i < |q| && q[i] == QueryEntry(p.key, v);
      TypeOfDeclared(schema, p.key);
      assert TypeOf(schema, p.key).value == p.shape.ty;
      assert HasType(v, p.shape.ty);
    }
  }

  /** In `InferQuery` a key declared `required` is mandatory and every other
      declared key is optional: dropping an optional entry keeps the query
      well typed, dropping a required one does not. */
  lemma RequiredMandatoryOthersOptional(schema: seq<QueryParam>, q: Query, i: nat)
    requires DistinctQueryKeys(q) && Typed(schema, q) && i < |q| && !q[i].value.Undefined?
    ensures Typed(schema, q[..i] + q[i + 1..]) <==> q[i].key !in RequiredKeys(schema)
  {
    var d := q[..i] + q[i + 1..];
    var k := q[i].key;
    assert forall j :: 0 <= j < |d| ==> d[j] == (if j < i then q[j] else q[j + 1]);
    forall key | key != k
      ensures Get(d, key) == Get(q, key)
    {
      GetOtherKey(q, i, key);
    }
    GetDropped(q, i);
    if k in RequiredKeys(schema) {
      var j :| 0 <= j < |schema| && schema[j].shape.required && schema[j].key == k;
      assert Get(d, schema[j].key).Undefined?;
    } else {
      forall j | 0 <= j < |schema| && schema[j].shape.required
        ensures !Get(d, schema[j].key).Undefined?
      {
        assert schema[j].key != k;
      }
    }
  }

  lemma {:induction false} GetOtherKey(q: Query, i: nat, key: string)
    requires i < |q| && q[i].key != key
    ensures Get(q[..i] + q[i + 1..], key) == Get(q, key)
  {
    if i > 0 {
      var d := q[..i] + q[i + 1..];
      assert d[1..] == q[1..][..i - 1] + q[1..][i..];
      GetOtherKey(q[1..], i - 1, key);
    } else {
      assert q[..i] + q[i + 1..] == q[1..];
    }
  }

  lemma {:induction false} GetDropped(q: Query, i: nat)
    requires DistinctQueryKeys(q) && i < |q|
    ensures Get(q[..i] + q[i + 1..], q[i].key) == Undefined
  {
    var d := q[..i] + q[i + 1..];
    forall j | 0 <= j < |d|
      ensures d[j].key != q[i].key
    {
      if j < i { assert d[j] == q[j]; } else { assert d[j] == q[j + 1]; }
    }
  }

  /** The value a parameter takes in the query string: booleans as `"1"` or
      `"0"`, everything else by `String`. */
  function FormValue(v: QueryValue): string {
    if v.QBool? then (if v.b then "1" else "0") else Stringify(v)
  }

  /** The `(key, value)` pairs `find` hands to `URLSearchParams`: the
      entries that are neither `undefined` nor `null`, in order. */
  function Serialised(q: Query): seq<(string, string)> {
    if q == [] then []
    else (if IsMissing(q[0].value) then [] else [(q[0].key, FormValue(q[0].value))]) + Serialised(q[1..])
  }

  /** Serialisation works entry by entry: it distributes over
      concatenation, drops a missing entry and keeps a present one with its
      form value. */
  lemma {:induction false} SerialisedAppend(a: Query, b: Query)
    ensures Serialised(a + b) == Serialised(a) + Serialised(b)
  {
    if a != [] {
      assert (a + b)[1..] == a[1..] + b;
      SerialisedAppend(a[1..], b);
    } else {
      assert a + b == b;
    }
  }

  lemma SerialisedEntry(e: QueryEntry)
    ensures IsMissing(e.value) ==> Serialised([e]) == []
    ensures !IsMissing(e.value) ==> Serialised([e]) == [(e.key, FormValue(e.value))]
    ensures e.value.QBool? ==> Serialised([e]) == [(e.key, if e.value.b then "1" else "0")]
  {
    assert [e][1..] == [];
  }

  /** Every pair serialised comes from a present entry of the query. */
  lemma {:induction false} SerialisedSound(q: Query)
    ensures |Serialised(q)| <= |q|
    ensures forall k :: 0 <= k < |Serialised(q)| ==>
              exists i :: 0 <= i < |q| && !IsMissing(q[i].value) && Serialised(q)[k] == (q[i].key, FormValue(q[i].value))
  {
    if q == [] {
      assert Serialised(q) == [];
    } else {
      var t := q[1..];
      SerialisedSound(t);
      var head := if IsMissing(q[0].value) then [] else [(q[0].key, FormValue(q[0].value))];
      var s := Serialised(q);
      assert s == head + Serialised(t);
      forall k | 0 <= k < |s|
        ensures exists i :: 0 <= i < |q| && !IsMissing(q[i].value) && s[k] == (q[i].key, FormValue(q[i].value))
      {
        if k < |head| {
          assert !IsMissing(q[0].value) && s[k] == (q[0].key, FormValue(q[0].value));
        } else {
          var i :| 0 <= i < |t| && !IsMissing(t[i].value) && Serialised(t)[k - |head|] == (t[i].key, FormValue(t[i].value));
          assert q[i + 1] == t[i] && s[k] == Serialised(t)[k - |head|];
        }
      }
    }
  }

  /** Every present entry of `q` occurs, with its form value, in `pairs`. */
  predicate ListsPresent(q: Query, pairs: seq<(string, string)>) {
    forall i :: 0 <= i < |q| && !IsMissing(q[i].value) ==>
      exists k :: 0 <= k < |pairs| && pairs[k] == (q[i].key, FormValue(q[i].value))
  }

  /** Every present entry of the query is serialised. */
  lemma {:induction false} SerialisedComplete(q: Query)
    ensures ListsPresent(q, Serialised(q))
  {
    if q != [] {
      var t := q[1..];
      SerialisedComplete(t);
      var head := if IsMissing(q[0].value) then [] else [(q[0].key, FormValue(q[0].value))];
      var s := Serialised(q);
      assert s == head + Serialised(t);
      forall i | 0 <= i < |q| && !IsMissing(q[i].value)
        ensures exists k :: 0 <= k < |s| && s[k] == (q[i].key, FormValue(q[i].value))
      {
        if i == 0 {
          assert s[0] == (q[0].key, FormValue(q[0].value));
        } else {
          assert t[i - 1] == q[i];
          var k :| 0 <= k < |Serialised(t)| && Serialised(t)[k] == (t[i - 1].key, FormValue(t[i - 1].value));
          assert s[k + |head|] == Serialised(t)[k];
        }
      }
    }
  }

  /** `new URLSearchParams(pairs).toString()`: each name and value
      form-encoded, joined by `=` within a pair and `&` between pairs. */
  function QueryString(h: Host, pairs: seq<(string, string)>): (r: string)
    ensures r == "" <==> pairs == []
  {
    if pairs == [] then ""
    else
      var first := h.formEncode(pairs[0].0) + "=" + h.formEncode(pairs[0].1);
      if |pairs| == 1 then first else first + "&" + QueryString(h, pairs[1..])
  }

  /** Serialising two lists of pairs one after the other gives the two
      query strings joined by `&` (no separator when either is empty). */
  lemma {:induction false} QueryStringConcat(h: Host, a: seq<(string, string)>, b: seq<(string, string)>)
    ensures QueryString(h, a + b) ==
      QueryString(h, a) + (if a != [] && b != [] then "&" else "") + QueryString(h, b)
  {
    if a == [] {
      assert a + b == b;
    } else if |a| == 1 {
      if b != [] {
        assert (a + b)[1..] == b;
      } else {
        assert a + b == a;
      }
    } else {
      assert (a + b)[1..] == a[1..] + b;
      QueryStringConcat(h, a[1..], b);
    }
  }
}

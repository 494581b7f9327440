/** Request composition and response classification of `src/lib/endpoint.ts`:
    the option objects `find` and `get` merge with `Object.assign`, `req`
    (headers and URL), `check`, and the decisions `fetchDocument` takes on
    what `fetch` returned. */
module Http {
  import opened Wrappers
  import opened Text
  import opened Runtime
  import opened Errors

  /** `EndpointOptions & { columns?: ... }`: each property present or absent.
      Headers are a record, listed here in `Object.entries` order. */
  datatype Options = Options(
    headers: Option<seq<(string, string)>> := None,
    locale: Option<string> := None,
    columns: Option<seq<string>> := None)

  /** `Object.assign(target, src)`: every property `src` has replaces the
      target's, the others stay. */
  function Assign(target: Options, src: Options): Options {
    Options(
      if src.headers.Some? then src.headers else target.headers,
      if src.locale.Some? then src.locale else target.locale,
      if src.columns.Some? then src.columns else target.columns)
  }

  /** Assigning nothing changes nothing, assigning onto nothing copies, the
      same source twice is the same as once, and two assignments in a row
      are one assignment of the merged sources. */
  lemma AssignLaws(a: Options, b: Options, c: Options)
    ensures Assign(a, Options()) == a
    ensures Assign(Options(), a) == a
    ensures Assign(Assign(a, b), b) == Assign(a, b)
    ensures Assign(Assign(a, b), c) == Assign(a, Assign(b, c))
  {
  }

  /** A property set by one assignment survives every later assignment that
      does not set it: this is how `columns` passed to one call reaches the
      next one when the target is the endpoint's stored options. */
  lemma AssignKeepsUnset(a: Options, cols: seq<string>, later: Options)
    requires later.columns.None?
    ensures Assign(Assign(a, Options(columns := Some(cols))), later).columns == Some(cols)
  {
  }

  /** `const { columns, ...rest }`: the options without `columns`. */
  function WithoutColumns(o: Options): Options {
    o.(columns := None)
  }

  /** `response.ok`. */
  predicate IsOk(status: int) {
    200 <= status <= 299
  }

  /** `check`: 200 passes, then 302, 503, any other 5xx and any 4xx throw
      in that order of tests, and everything else passes. */
  function Check(status: int): Outcome<Error> {
    if status == 200 then Pass
    else if status == 302 then Fail(Redirected)
    else if status == 503 then Fail(Maintenance)
    else if status >= 500 then Fail(ServerError(status))
    else if status >= 400 then Fail(RequestFailed(status))
    else Pass
  }

  /** `check` throws exactly for 302 and for statuses of 400 and above, with
      the kind its tests assign; in particular it never throws on a 2xx. */
  lemma CheckCases(status: int)
    ensures Check(status).Fail? <==> status == 302 || status >= 400
    ensures status == 302 ==> Check(status) == Fail(Redirected)
    ensures status == 503 ==> Check(status) == Fail(Maintenance)
    ensures status >= 500 && status != 503 ==> Check(status) == Fail(ServerError(status))
    ensures 400 <= status < 500 ==> Check(status) == Fail(RequestFailed(status))
    ensures IsOk(status) ==> Check(status) == Pass
  {
  }

  /** The user agent every request announces. */
  const BaseUserAgent := "curl/0.1.0 (+https://github.com/miichom/lodestone)"

  /** `Object.fromEntries(entries.map(([k, v]) => [k.toLowerCase(), v]))`:
      keys lower-cased, a later entry overwriting an earlier one that
      lower-cases to the same key. */
  function LowerHeaders(hs: seq<(string, string)>): (m: map<string, string>)
    ensures m.Keys == set i | 0 <= i < |hs| :: Lower(hs[i].0)
  {
    if hs == [] then map[]
    else
      var p := hs[..|hs| - 1];
      assert forall i :: 0 <= i < |p| ==> p[i] == hs[i];
      LowerHeaders(p)[Lower(hs[|hs| - 1].0) := hs[|hs| - 1].1]
  }

  /** Every key of the lower-cased headers is lower case, and holds the
      value of the last entry whose key lower-cases to it. */
  lemma {:induction false} LowerHeadersLastWins(hs: seq<(string, string)>, i: nat)
    requires i < |hs|
    requires forall j :: i < j < |hs| ==> Lower(hs[j].0) != Lower(hs[i].0)
    ensures LowerHeaders(hs)[Lower(hs[i].0)] == hs[i].1
    ensures forall k | k in LowerHeaders(hs) :: IsLowerCase(k)
  {
    var p := hs[..|hs| - 1];
    assert forall j :: 0 <= j < |p| ==> p[j] == hs[j];
    if i < |hs| - 1 {
      LowerHeadersLastWins(p, i);
    } else if p != [] {
      LowerHeadersLastWins(p, |p| - 1);
    }
  }

  /** The `user-agent` header `req` sends: the base string, followed by a
      space and the caller's value when that value is non-empty. */
  function UserAgent(m: map<string, string>): string {
    if "user-agent" in m && m["user-agent"] != "" then BaseUserAgent + " " + m["user-agent"]
    else BaseUserAgent
  }

  /** The headers `req` sends: the caller's, lower-cased, with the user
      agent set. */
  function RequestHeaders(o: Options): (m: map<string, string>)
    ensures "user-agent" in m
  {
    var lowered := LowerHeaders(o.headers.GetOr([]));
    lowered["user-agent" := UserAgent(lowered)]
  }

  /** Every header other than the user agent is the caller's, lower-cased;
      the user agent always starts with the base string and is exactly the
      base string when the caller gave none or an empty one. */
  lemma RequestHeadersSpec(o: Options)
    ensures var m, lowered := RequestHeaders(o), LowerHeaders(o.headers.GetOr([]));
      && m.Keys == lowered.Keys + {"user-agent"}
      && (forall k | k in m && k != "user-agent" :: m[k] == lowered[k])
      && StartsWith(m["user-agent"], BaseUserAgent)
      && (("user-agent" !in lowered || lowered["user-agent"] == "") ==> m["user-agent"] == BaseUserAgent)
      && ("user-agent" in lowered && lowered["user-agent"] != "" ==>
            m["user-agent"] == BaseUserAgent + " " + lowered["user-agent"])
  {
    var lowered := LowerHeaders(o.headers.GetOr([]));
    var ua := UserAgent(lowered);
    assert ua[..|BaseUserAgent|] == BaseUserAgent;
  }

  /** The URL `req` fetches. */
  function RequestUrl(locale: string, registryPath: string, path: string): string {
    Origin(locale) + ("finalfantasyxiv.com/lodestone/" + registryPath + "/" + StripLeadingSlashes(path))
  }

  /** The scheme and the locale's sub-domain label. */
  function Origin(locale: string): string {
    "https://" + locale + "."
  }

  /** Leading slashes of the path do not reach the URL: a path with any
      number of them added gives the same URL, and a path without them is
      appended as it is. */
  lemma RequestUrlSlashes(locale: string, registryPath: string, slashes: string, path: string)
    requires forall i :: 0 <= i < |slashes| ==> slashes[i] == '/'
    ensures RequestUrl(locale, registryPath, slashes + path) == RequestUrl(locale, registryPath, path)
    ensures path == [] || path[0] != '/' ==>
              RequestUrl(locale, registryPath, path)
              == Origin(locale) + ("finalfantasyxiv.com/lodestone/" + registryPath + "/" + path)
  {
    SlashesStripped(slashes, path);
  }

  lemma {:induction false} SlashesStripped(slashes: string, path: string)
    requires forall i :: 0 <= i < |slashes| ==> slashes[i] == '/'
    ensures StripLeadingSlashes(slashes + path) == StripLeadingSlashes(path)
  {
    var t := slashes + path;
    if slashes != [] {
      assert t[0] == '/';
      assert t[1..] == slashes[1..] + path;
      SlashesStripped(slashes[1..], path);
    } else {
      assert t == path;
    }
  }

  /** `req(path, options)`: the locale defaults to `"na"` when absent. Every
      caller passes an options object, so the fallback to the stored
      options is never taken. */
  function Req(registryPath: string, path: string, o: Options): (r: Request)
    ensures o.locale.None? ==> StartsWith(r.url, "https://na.")
    ensures o.locale.Some? ==> StartsWith(r.url, "https://" + o.locale.value + ".")
  {
    var locale := o.locale.GetOr("na");
    StartsWithConcat(Origin(locale), "finalfantasyxiv.com/lodestone/" + registryPath + "/" + StripLeadingSlashes(path));
    assert Origin("na") == "https://na.";
    Request(RequestUrl(locale, registryPath, path), RequestHeaders(o))
  }

  /** `fetchDocument`: a non-2xx or 404 response gives `null` before `check`
      runs; after `check`, a missing document or one containing
      `.parts__zero` gives `null`; otherwise the document. */
  function FetchDocument(h: Host, registryPath: string, path: string, o: Options): Result<Option<Node>, Error> {
    var response := h.fetch(Req(registryPath, path, o));
    if !IsOk(response.status) || response.status == 404 then Ok(None)
    else
      match Check(response.status)
      case Fail(e) => Err(e)
      case Pass =>
        match response.document
        case None => Ok(None)
        case Some(d) => if QuerySelector(h, d, ".parts__zero").Some? then Ok(None) else Ok(Some(d))
  }

  /** `fetchDocument` never throws (`check` only sees 2xx statuses), and it
      yields a document exactly when the status is 2xx, a document was
      parsed and it has no `.parts__zero` node; the 404 test is subsumed by
      the `ok` test. */
  lemma FetchDocumentCases(h: Host, registryPath: string, path: string, o: Options)
    ensures var r, response := FetchDocument(h, registryPath, path, o), h.fetch(Req(registryPath, path, o));
      && r.Ok?
      && (r.value.Some? <==>
            && IsOk(response.status)
            && response.document.Some?
            && h.querySelectorAll(response.document.value, ".parts__zero") == [])
      && (r.value.Some? ==> r.value == response.document)
  {
    var response := h.fetch(Req(registryPath, path, o));
    CheckCases(response.status);
  }
}

/** The foreign collaborators the endpoint calls into, as uninterpreted
    function values: the parsed document tree (linkedom), the JavaScript
    regular-expression engine, the `URL`, `Number` and `Date.parse`
    built-ins, and the network (`fetch`). */
module Runtime {
  import opened Wrappers
  import Schema

  /** A node of a parsed document: a `Document` or an `Element`. */
  datatype Node = Node(id: nat)

  /** One named capture group of a match: its name and the text it captured,
      `None` when the group did not participate. */
  datatype NamedGroup = NamedGroup(name: string, capture: Option<string>)

  /** The array `String.prototype.match` returns: `groups` is `None` when the
      regex declares no named group, and `group1` is `match[1]`. */
  datatype Match = Match(groups: Option<seq<NamedGroup>>, group1: Option<string>)

  /** The request `fetch` is given (always a GET that follows redirects). */
  datatype Request = Request(url: string, headers: map<string, string>)

  /** What a fetch yields: the status and the document `parseHTML` built
      from the body (`None` when it gave no document). */
  datatype Response = Response(status: int, document: Option<Node>)

  datatype Host = Host(
    /** `node.querySelectorAll(css)`, in document order. */
    querySelectorAll: (Node, string) -> seq<Node>,
    /** `node.textContent`. */
    textContent: Node -> string,
    /** `node.getAttribute(name)`, `None` for `null`. */
    getAttribute: (Node, string) -> Option<string>,
    /** `value.match(regex)`, `None` for `null`. */
    exec: (Schema.Regex, string) -> Option<Match>,
    /** `new URL(s)` does not throw. */
    isUrl: string -> bool,
    /** `!Number.isNaN(Number(s))`. */
    isNumber: string -> bool,
    /** `!Number.isNaN(Date.parse(s))`. */
    isDate: string -> bool,
    /** The `application/x-www-form-urlencoded` serialiser `URLSearchParams`
        applies to each name and value. */
    formEncode: string -> string,
    /** `fetch(url, { headers, method: "GET", redirect: "follow" })` and
        `parseHTML` of its body. */
    fetch: Request -> Response)

  /** `node.querySelector(css)`: the first node `querySelectorAll` finds. */
  function QuerySelector(h: Host, n: Node, css: string): (r: Option<Node>)
    ensures r.None? <==> h.querySelectorAll(n, css) == []
    ensures r.Some? ==> r.value == h.querySelectorAll(n, css)[0]
  {
    var all := h.querySelectorAll(n, css);
    if all == [] then None else Some(all[0])
  }

  /** The regex engine reports named groups the way JavaScript does: a
      `groups` object exactly when the regex declares named groups, holding
      those groups in declaration order. */
  predicate MatchAgrees(r: Schema.Regex, m: Match) {
    && (m.groups.Some? <==> r.groupNames != [])
    && (m.groups.Some? ==>
          && |m.groups.value| == |r.groupNames|
          && forall i :: 0 <= i < |r.groupNames| ==> m.groups.value[i].name == r.groupNames[i])
  }
}

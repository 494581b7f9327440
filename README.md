# lodestone endpoint core in Dafny

This project models the core of `lodestone`, a TypeScript client that scrapes
the Final Fantasy XIV Lodestone site. Each supported section of the site is
described by a *registry* (`src/lib/registry.ts`). A registry holds:

- a path;
- CSS selector maps for the item page and for search entries;
- optional extra "columns" with their own pages;
- a query schema for searches.

A generic `Endpoint` (`src/lib/endpoint.ts`) interprets a registry:

- `extract` walks a selector map over a parsed page. It uses `getRawValue`, `applyRegex` and `coerce`.
- `validate` checks a search query against the schema. It uses `isMissing` and `isValid`.
- `req` composes the request headers and URL.
- `check` and `fetchDocument` classify the response.
- `fetchColumn`, `get` and `find` orchestrate one request each.

`src/index.ts` builds one endpoint per registry, and all five hold the options object the caller passes in.

The model is split by concern:

| file | models |
|---|---|
| `wrappers.dfy` | `Option`, `Result` and `Outcome`, which stand for `undefined`/`null` and for thrown exceptions |
| `errors.dfy` | each `LodestoneError` message as one constructor, plus the `TypeError` of `new URL` |
| `text.dfy` | the JavaScript string operations used: `trim`, ASCII `toLowerCase`, the leading-slash `replace` and `endsWith` |
| `schema.dfy` | the types of `registry.ts`. Selector types are parsed from and printed to their literal names. A selector map is a sequence of entries in `Object.entries` order. It also holds the well-formedness the TypeScript types guarantee, and the keys `InferItem` promises |
| `registries.dfy` | the five constant registries, entry for entry |
| `runtime.dfy` | the foreign collaborators, as function values of one `Host`: DOM queries, text and attributes, the regex engine, the `URL`/`Number`/`Date.parse` predicates, the form encoder and `fetch` |
| `extraction.dfy` | `getRawValue`, `applyRegex`, `coerce` and the value `extract` builds, as functions. It also states the result shape `InferSelector` promises and proves that extraction delivers it |
| `query.dfy` | `isMissing`, `isValid`, `validate` as the rule sequence it runs, the serialisation of a query, and the `InferQuery` type |
| `http.dfy` | `Object.assign` on options, `check`, `req`, and the decisions of `fetchDocument` |
| `client.dfy` | the `Endpoint` and `Lodestone` classes. Their methods run the source's loops and are proved equal to the functions `ColumnValue`, `Got` and `Found`. The lemmas about those functions state what `get` and `find` deliver |
| `scenarios.dfy` | the cases `tests/lib/lodestone.test.ts` asserts, for any host consistent with them |

**Where the code and its documentation differ**, the model follows the code:

- `fetchDocument` returns `null` for every response that is not 2xx before `check` is reached. So `check`, although it distinguishes redirects, maintenance and server errors, never throws, and none of its errors reaches a caller (`Http.FetchDocumentCases`). A rejected `fetch` or `text()` is outside the model.
- There is a single error class. The kinds in `Errors.Error` stand for its messages.
- `find` filters entries with `v.id !== null || v.id !== undefined`, which is always true, so every `div.entry` yields a record (`Client.KeptByIdKeepsAll`).
- `key in schema` also finds the properties of `Object.prototype`. A query key such as `constructor` therefore passes the unknown-key check (`Scenarios.PrototypeKeyPasses`).
- The `mount` column uses the `minion` selector (`Registries.MountUsesMinionSelector`).
- `InferItem` without a column list promises every declared column. `get` without `columns` adds none (`Client.GotWithinInferItem`).
- `Object.assign(this.options ?? {}, options)` writes into the options object that every endpoint of a `Lodestone` holds, which is the caller's own object. The merged options, `columns` included, stay there for every later call on all five endpoints. Only a later `character.get` acts on the stored `columns`: `find` never reads them, and the other four registries declare no columns, so their `get` skips the column loop (`Client.Endpoint.Get`, `Scenarios.ColumnsCarryOver`).
- `InferSelector` types a scalar selector as `Primitives[U]`, but `extract` stores `undefined` for a scalar whose node is missing. `Extraction.Conforms` admits `undefined` there (`Extraction.LeafExtraction`).

## Model

| member | source | states |
|---|---|---|
| Text.Trim | src/lib/endpoint.ts:152 | the trimmed text is the infix left after removing ECMAScript whitespace at both ends: everything removed is whitespace, and the result neither starts nor ends with whitespace |
| Text.LeadingRun | src/lib/endpoint.ts:152 | the length of the longest prefix whose characters all satisfy the predicate: every character before it does, and the next one does not |
| Text.TrailingRun | src/lib/endpoint.ts:152 | the length of the longest suffix whose characters all satisfy the predicate: every character after it does, and the one before it does not |
| Text.TrimIdempotent | src/lib/endpoint.ts:152 | trimming twice is trimming once |
| Text.TrimPadded | src/lib/endpoint.ts:152 | a string without surrounding whitespace, padded with any number of spaces on both sides, trims back to itself |
| Text.StripLeadingSlashes | src/lib/endpoint.ts:63 | `path.replace(/^\/+/, "")` leaves a suffix of the path; everything removed is `/`, and what remains does not start with `/` |
| Text.Lower | src/lib/endpoint.ts:56 | lower-casing keeps the length, maps each character to its lower-case letter, and leaves no upper-case letter |
| Text.LowerIdempotent | src/lib/endpoint.ts:56 | lower-casing twice is lower-casing once |
| Schema.ParsePrimitive | src/lib/registry.ts:2-3 | a name that parses is the name of the primitive it parses to |
| Schema.ParseTypeRoundTrip | src/lib/registry.ts:7 | a selector `type` is one of the five primitive names, optionally followed by `[]`: every type's name parses back to it, and every string that parses is the name of its result |
| Schema.SplitTypeName | src/lib/endpoint.ts:200-201 | `extract`'s `endsWith("[]")` test and `slice(0, -2)` give, on every selector type, its array flag and its primitive's name |
| Schema.Lookup | src/lib/endpoint.ts:83 | a selector is found for a key exactly when the map declares that key, and it is the field of an entry with that key |
| Schema.RootOnlyForObjectArrays | src/lib/registry.ts:13-15 | an `object` group without a `root` entry is well formed, while the same shape as an `object[]` group is not |
| Runtime.QuerySelector | src/lib/endpoint.ts:213 | `querySelector` finds nothing exactly when `querySelectorAll` is empty, and otherwise finds its first node |
| Extraction.RawValueCases | src/lib/endpoint.ts:149-153 | with a non-empty `attribute`, the raw value is that attribute, or `""` when the node lacks it; otherwise it is the trimmed text; an empty attribute name reads like none |
| Extraction.ApplyRegexCases | src/lib/endpoint.ts:155-165 | no regex leaves the value; no match gives `""`; a regex with named groups gives the first-declared group's capture, or `""` when it did not participate; otherwise group 1, or `""` |
| Extraction.Coerce | src/lib/endpoint.ts:167-185 | boolean is true exactly for `"1"` and `"true"`; string is the identity; number and date carry the text; only url can throw, and it throws exactly when `new URL` rejects the text; each result has the requested primitive kind |
| Extraction.LeafValues | src/lib/endpoint.ts:203-209 | an array selector maps each node in order, one value per node, and throws exactly when some node's value throws |
| Extraction.ExtractedEachSpec | src/lib/endpoint.ts:194-195 | mapping `extract` over nodes yields one record per node in order, and throws exactly when some node throws |
| Extraction.ExtractedErrPersists | src/lib/endpoint.ts:190-222 | once an entry of the selector map throws, `extract` throws that error, and later entries do not change it |
| Extraction.EachErrPersists | src/lib/endpoint.ts:195 | once a node's record throws, the map over the nodes throws that error |
| Extraction.SingleEntry | src/lib/endpoint.ts:89 | extracting the one-entry map `{ value: selector }` yields exactly the selector's value under `value`, or its error |
| Extraction.LeafExtraction | src/lib/endpoint.ts:200-221 | a scalar with no matching node is `undefined` and does not throw; a scalar with a match is the first match's value; an array selector yields one value per matching node in document order, and `[]` when nothing matches |
| Extraction.ObjectArrayExtraction | src/lib/endpoint.ts:193-196 | an `object[]` group yields one record per node its `root` selector matches, each extracted against the whole shape (so each has a `root` key), and `[]` when nothing matches |
| Extraction.ExtractedEntries | src/lib/endpoint.ts:187-225 | `extract` returns exactly one key per entry, each holding that entry's value, and throws exactly when some entry throws |
| Extraction.FieldConforms | src/lib/registry.ts:41-53 | every extracted value has the shape `InferSelector` declares, widened by `undefined` for a scalar as `extract` stores it (endpoint.ts line 215): a primitive of the selector's kind or `undefined` for a scalar, an array of that kind, a nested record, or an array of records. The only error is a URL failure |
| Extraction.ShapeConforms | src/lib/registry.ts:40 | an extracted record has exactly the map's keys, each value conforming to its selector in the widened sense above, and its only error is a URL failure |
| Extraction.EachConforms | src/lib/registry.ts:48 | each record of a mapped extraction conforms to the shape, and its only error is a URL failure |
| Extraction.UrlFreeFieldExtracts | src/lib/endpoint.ts:179 | only `new URL` can make extraction throw: a field with no `url` selector always extracts |
| Extraction.UrlFreeShapeExtracts | src/lib/endpoint.ts:187-225 | a selector map with no `url` selector always extracts |
| Extraction.TrimmedTextScenario | src/lib/endpoint.ts:219-221 | a string selector over a node whose text is padded with spaces yields the trimmed text |
| Extraction.NamedGroupScenario | src/lib/endpoint.ts:161-163 | a named-group regex over a world label yields the capture of its named group |
| Query.Get | src/lib/endpoint.ts:134 | `query[key]` is `undefined` when no entry has the key |
| Query.GetEntry | src/lib/endpoint.ts:134 | a value of `query[key]` that is not `undefined` is the value of an entry with that key |
| Query.GetDistinct | src/lib/endpoint.ts:134 | with distinct keys, `query[key]` is that key's entry's value |
| Query.FirstUnknownPersists | src/lib/endpoint.ts:127-131 | once a key is unknown, the scan throws for that key whatever follows |
| Query.FirstViolationPersists | src/lib/endpoint.ts:133-146 | once a schema entry is violated, the walk throws that violation whatever follows |
| Query.FirstUnknownSpec | src/lib/endpoint.ts:127-131 | no unknown key is found exactly when every query key is `in` the schema; otherwise the one reported is the first key that is not |
| Query.FirstViolationSpec | src/lib/endpoint.ts:133-146 | no violation is found exactly when every schema entry is satisfied; otherwise the one reported is the first entry's violation |
| Query.ValidationPassIff | src/lib/endpoint.ts:124-147 | `validate` passes exactly when every key is known, every required entry is present and not `null`, and every present value has its type and matches its pattern |
| Query.UnknownReportedFirst | src/lib/endpoint.ts:127-131 | the first unknown key is the error, whatever the values |
| Query.EmptyQueryMissing | src/lib/endpoint.ts:135-137 | the empty query fails on the first required schema entry |
| Query.EmptyStringSatisfiesRequired | src/lib/endpoint.ts:135-139 | `""` satisfies a required string parameter without a pattern |
| Query.TypeOfDeclared | src/lib/registry.ts:34-38 | a key has a declared type exactly when the schema declares it, and it is the type of its entry |
| Query.TypedViolation | src/lib/endpoint.ts:133-146 | one schema entry can reject a query of the `InferQuery` type only on its pattern or on the url type test |
| Query.TypedQueryFailsOnlyOnPattern | src/lib/registry.ts:34-38 | a query of the `InferQuery` type can fail only on a pattern or on the url type test, never on a missing, unknown or otherwise mistyped parameter |
| Query.RequiredMandatoryOthersOptional | src/lib/registry.ts:32-38 | in `InferQuery`, dropping an entry keeps the query well typed exactly when its key is not `required` |
| Query.IsValidCases | src/lib/endpoint.ts:99-122 | `boolean` accepts only booleans and `string` only strings; `number` accepts numbers, booleans and `null`, never `undefined`, and exactly the strings `Number` reads as numbers; `date` accepts dates and any value whose text `Date.parse` reads; `url` accepts exactly the values whose text `new URL` accepts |
| Query.SerialisedAppend | src/lib/endpoint.ts:241-246 | serialisation works entry by entry: it distributes over concatenation |
| Query.SerialisedEntry | src/lib/endpoint.ts:242-246 | an `undefined` or `null` entry is dropped, a boolean becomes `"1"` or `"0"`, and any other value is stringified |
| Query.SerialisedSound | src/lib/endpoint.ts:239-248 | every serialised pair comes from a present entry, with its form value |
| Query.SerialisedComplete | src/lib/endpoint.ts:239-248 | every present entry is serialised, with its form value |
| Query.QueryString | src/lib/endpoint.ts:239-248 | the parameter string is empty exactly when there are no pairs |
| Query.QueryStringConcat | src/lib/endpoint.ts:239-248 | serialising two lists of pairs in a row gives their two strings joined by `&`, with no separator when either is empty |
| Http.AssignLaws | src/lib/endpoint.ts:274 | `Object.assign` on options: assigning nothing changes nothing, assigning onto nothing copies, the same source twice equals once, and two assignments in a row equal one assignment of the merged sources |
| Http.AssignKeepsUnset | src/lib/endpoint.ts:274 | `columns` set by one assignment survive every later assignment that does not set them |
| Http.CheckCases | src/lib/endpoint.ts:44-51 | `check` throws exactly for 302 and for statuses of 400 and above, with the kind its conditions assign in order: redirect, maintenance for 503, server error for the other 5xx, request failure for 4xx. It never throws on a 2xx |
| Http.LowerHeaders | src/lib/endpoint.ts:55-57 | the header keys are exactly the lower-cased caller keys |
| Http.LowerHeadersLastWins | src/lib/endpoint.ts:55-57 | each lower-cased key holds the value of the last entry that lower-cases to it, and every key is lower case |
| Http.RequestHeadersSpec | src/lib/endpoint.ts:54-60 | the sent headers are the caller's, lower-cased, plus `user-agent`. The user agent is the base string when the caller gave none or an empty one, and otherwise the base string, a space and the caller's value |
| Http.RequestUrlSlashes | src/lib/endpoint.ts:63 | leading slashes of the path never reach the URL, and a path without them is appended unchanged after `lodestone/{path}/` |
| Http.Req | src/lib/endpoint.ts:53-66 | the URL starts with `https://na.` when no locale is given, and with `https://{locale}.` otherwise |
| Http.FetchDocumentCases | src/lib/endpoint.ts:68-76 | `fetchDocument` never throws an error of `check` (the host's `fetch` is total). It yields a document exactly when the status is 2xx, a document was parsed and the document has no `.parts__zero` node, and the document is the parsed one |
| Registries.CharacterWellFormed | src/lib/registry.ts:72-216 | the character registry literal is well formed: distinct keys in every map and in the query schema |
| Registries.CwlsWellFormed | src/lib/registry.ts:218-256 | the cross-world linkshell registry literal is well formed |
| Registries.FreecompanyWellFormed | src/lib/registry.ts:258-389 | the free company registry literal is well formed |
| Registries.LinkshellWellFormed | src/lib/registry.ts:391-430 | the linkshell registry literal is well formed |
| Registries.PvpTeamWellFormed | src/lib/registry.ts:432-473 | the PvP team registry literal is well formed |
| Registries.AllWellFormed | src/index.ts:25-29 | every registry an endpoint is built from is well formed |
| Registries.OnlyQRequired | src/lib/registry.ts:210 | in every registry, `q` is the only required query key, and it is typed `string` (also lines 252, 383, 425 and 469) |
| Registries.OnlyCharacterHasColumns | src/lib/registry.ts:74-88 | only `character` declares columns: exactly `achievement`, `faceaccessory`, `minion` and `mount`. The other four registries declare none |
| Registries.MountUsesMinionSelector | src/lib/registry.ts:86-87 | the `mount` column is declared with the `minion` column's selector |
| Registries.DistinctPaths | src/lib/registry.ts:215 | the five registry paths are pairwise distinct |
| Client.GroupColumnValue | src/lib/endpoint.ts:78-95 | a group column without a `url` selector never throws, and is `undefined` exactly when its page gives no document |
| Client.ColumnValue | src/lib/endpoint.ts:83-84 | a key the registry does not declare as a column resolves to `undefined` without a fetch (the body models lines 78-95) |
| Client.KeptByIdKeepsAll | src/lib/endpoint.ts:259 | the `id` filter of `find` keeps every record, in order |
| Client.MergedColumnsErrPersists | src/lib/endpoint.ts:281-284 | once a requested column throws, the column loop throws that error |
| Client.MergedColumnsErr | src/lib/endpoint.ts:281-284 | the column loop throws exactly when some requested column throws |
| Client.MergedColumnsKeys | src/lib/endpoint.ts:280-285 | the column loop keeps every item field, changes none whose key is not requested, and adds only requested keys whose value is not `undefined` |
| Client.MergedColumnsValues | src/lib/endpoint.ts:283 | every requested column whose value is not `undefined` holds that value after the loop |
| Client.GotNullIff | src/lib/endpoint.ts:276-277 | `get` resolves `null` exactly when the item page gives no document: a response that is not 2xx, no parsed document, or a `.parts__zero` node |
| Client.GotRecord | src/lib/endpoint.ts:274-287 | a resolved record has every item field, extracted from the item page and conforming to its selector. Without `columns`, or for a registry without columns, it is exactly those fields. With `columns`, every item field whose key is not requested keeps its extracted value, and any other key is a requested, declared column |
| Client.MergedColumnsErrFrom | src/lib/endpoint.ts:281-284 | an error of the column loop is the error of one requested column |
| Client.ColumnValueError | src/lib/endpoint.ts:78-95 | `fetchColumn` throws only a URL failure |
| Client.GotError | src/lib/endpoint.ts:270-288 | `get` throws only a URL failure, from the item fields or from a requested column |
| Client.FoundError | src/lib/endpoint.ts:233-262 | `find` throws either the validation error or, after validation passed, a URL failure of an extracted entry |
| Client.SearchPath | src/lib/endpoint.ts:239-251 | the search path starts with `?`, and is just `?` exactly when no entry of the query is serialised |
| Schema.InferItemKeys | src/lib/registry.ts:63-67 | the keys of `InferItem<R, C>` hold every item field and only declared columns; with `C`, every column of `C` and no other |
| Client.GotWithinInferItem | src/lib/registry.ts:63-67 | a resolved record's keys lie between the item fields and the keys `InferItem<R, C>` promises. Without `C`, they are exactly the item fields |
| Client.GotColumns | src/lib/endpoint.ts:280-285 | with `columns`, on a registry that declares columns, `get` throws exactly when a requested column throws, and every requested column that resolves to a value holds that value |
| Client.FoundValidatesFirst | src/lib/endpoint.ts:237 | `find` throws the validation error before anything is fetched |
| Client.FoundRecords | src/lib/endpoint.ts:254-261 | a resolved search had validated the query and fetched a page. It holds one record per `div.entry` node, in document order, each extracted against the list fields and conforming to them |
| Client.SharedOptions.constructor | src/index.ts:24 | the shared options object starts as the options passed in |
| Client.Endpoint.constructor | src/lib/endpoint.ts:39-42 | an endpoint keeps its registry and its (possibly absent) options object |
| Client.Endpoint.Merge | src/lib/endpoint.ts:274 | the merged options are the stored ones (or `{}`) with the caller's assigned over them, and the stored object, when there is one, now holds them |
| Client.Endpoint.Extract | src/lib/endpoint.ts:187-225 | the loop of `extract` computes `Extraction.Extracted` |
| Client.Endpoint.ExtractField | src/lib/endpoint.ts:190-222 | one iteration of `extract`'s loop computes `Extraction.ExtractedField` |
| Client.Endpoint.ExtractEach | src/lib/endpoint.ts:194-195 | the map of `extract` over nodes computes `Extraction.ExtractedEach` |
| Client.Endpoint.Validate | src/lib/endpoint.ts:124-147 | `validate` computes `Query.Validation`: the unknown-key loop first, then the schema loop |
| Client.Endpoint.ScanKeys | src/lib/endpoint.ts:127-131 | the first loop of `validate` finds exactly `Query.FirstUnknown`, the first query key the schema does not declare |
| Client.Endpoint.ScanSchema | src/lib/endpoint.ts:133-146 | the second loop of `validate` finds exactly `Query.FirstViolation`, the first schema entry the query violates and how |
| Client.Endpoint.FetchColumn | src/lib/endpoint.ts:78-95 | `fetchColumn` computes `Client.ColumnValue` |
| Client.Endpoint.AddColumns | src/lib/endpoint.ts:280-285 | the loop over `columns` computes `Client.MergedColumns` of the values `fetchColumn` gives |
| Client.Endpoint.Get | src/lib/endpoint.ts:270-288 | `get` resolves `Client.Got` of the merged options, and the stored options object now holds the merged options, `columns` included |
| Client.Endpoint.Find | src/lib/endpoint.ts:233-262 | `find` resolves `Client.Found` of the merged options. The stored options are unchanged when validation throws, and hold the merged options otherwise |
| Client.Lodestone.constructor | src/index.ts:24-29 | the five endpoints are built from the five registries and the one host, and all hold the very options object the caller passed |
| Scenarios.EmptyQueriesMissQ | tests/lib/lodestone.test.ts:50 | `find({})` throws on the missing `q` in every registry (also lines 84, 119, 153 and 187) |
| Scenarios.UndeclaredKeysRejected | tests/lib/lodestone.test.ts:52 | `dcname` is rejected as unknown by character, free company and linkshell, and `worldname` by the cross-world linkshell and PvP team (also lines 86, 121, 155 and 189) |
| Scenarios.CwlsDataCenterQueryPasses | tests/lib/lodestone.test.ts:90 | a data-centre search with an empty `q` passes validation for the cross-world linkshell when `_dc_Light` matches the `dcname` pattern |
| Scenarios.PvpTeamDataCenterQueryPasses | tests/lib/lodestone.test.ts:193 | the same data-centre search passes validation for the PvP team |
| Scenarios.CharacterWorldQueryPasses | tests/lib/lodestone.test.ts:56 | the character search by name and world passes validation when `Raiden` matches the `worldname` pattern |
| Scenarios.FreecompanyWorldQueryPasses | tests/lib/lodestone.test.ts:125 | the free company search by world passes validation |
| Scenarios.LinkshellWorldQueryPasses | tests/lib/lodestone.test.ts:159 | the linkshell search by world passes validation |
| Scenarios.PrototypeKeyPasses | src/lib/endpoint.ts:128 | a key that `Object.prototype` supplies, such as `constructor`, is accepted by `validate` although no schema entry declares it |
| Scenarios.CharacterItemKeys | src/lib/registry.ts:89-171 | the character item fields include `id` and `name` and none of the column keys |
| Scenarios.CharacterGetWithoutColumns | tests/lib/lodestone.test.ts:26-32 | `character.get(id)` without `columns` resolves exactly the item fields: `id` and `name`, and no `achievement` |
| Registries.AchievementIsGroup | src/lib/registry.ts:75-81 | the `achievement` column is an `object` group of two selectors, neither typed `url` |
| Scenarios.AchievementColumn | src/lib/registry.ts:75-81 | the `achievement` column never throws, and is `undefined` exactly when its page gives no document |
| Scenarios.CharacterGetAchievement | tests/lib/lodestone.test.ts:36-43 | `character.get(id, { columns: ["achievement"] })` has no `minion`, `mount` or `faceaccessory`, and has `achievement` exactly when the column page gives a document |
| Scenarios.ColumnsCarryOver | src/lib/endpoint.ts:274 | on a `Lodestone` created with the caller's object `{ locale: "jp" }`, a `character.get` with `columns: ["achievement"]` makes the next `character.get` without options resolve as if it had asked for them, and the caller's object now holds those options |

## Left out

- The network (`fetch`, `await`, redirect following), `response.text()` and `parseHTML`. They are the total `Host.fetch` function, from the request to a status and an optional parsed document. A rejected `fetch` or `text()`, which `fetchDocument`, `get` and `find` pass on to their caller, is not modelled; nor are asynchrony and the ordering of concurrent calls.
- CSS selector matching, `textContent` and `getAttribute`. These are uninterpreted functions of an abstract node, and `querySelector` is the head of `querySelectorAll`.
- The JavaScript `RegExp` engine. `match` is an uninterpreted function returning an optional match with named groups and group 1. `Extraction.ApplyRegexCases` assumes that it reports named groups in declaration order (`Runtime.MatchAgrees`), as JavaScript does. Pattern `test` is taken to succeed exactly when `match` finds a match.
- `Number`, `Date`, `Date.parse` and `new URL`, which are floating point or foreign. Each is a symbolic value holding its text, or an uninterpreted predicate (`isNumber`, `isDate`, `isUrl`). Only the throwing of `new URL` is modelled.
- `URLSearchParams` percent-encoding. It is the uninterpreted `formEncode`, applied to each name and value.
- The iteration order of JavaScript objects. Records are maps, with no key order, while selector maps, queries and header lists are sequences in `Object.entries` order.
- An `Options` property that is present but holds `undefined` is treated as absent. `Object.assign` would copy such a property.
- Client.Endpoint.Get: the `id` argument, a string or number, is represented by its `toString()` text.
- Http.RequestHeaders: header values are strings in the model, so the `String(v)` conversion is the identity.
- Http.Req: the fallback to the stored options when no options are passed is not modelled, because every caller passes an options object.
- Text.Lower: `toLowerCase` is modelled for ASCII letters only. Other letters are left as they are.
- Client.ColumnValue: the optional-chaining lookup `columns?.[key]` is modelled on the declared column keys only. An inherited key such as `constructor`, which `InferColumns` does not admit, would find a prototype function in JavaScript.
- `InferSelector` and the rest of TypeScript's type-level inference, which survive only as the shape predicates `Extraction.Conforms`, `Query.Typed` and `Schema.InferItemKeys`.
- `src/error.ts`, an unused second error class, is not part of this model. Neither are the build and lint configuration files.

# scraper-extension core, modelled in Dafny

This project models four pieces of the scraper-extension browser extension and
proves properties about them:

- **The control-flow operators of the expression language** (`define`, `call`,
  `get`, `exec`, `eval`, `err`, module `SysOperators`, file `sys_operators.dfy`).
  - An expression is a literal, which evaluates to itself, or an operator node.
  - Evaluation threads a `Scope`: the ambient context, constants, functions and
    the last error.
  - `define` layers new constants and functions over the parent scope. `call`
    runs a named function with an optional new context. `get` reads a constant,
    with a lazily evaluated default. `exec` compiles an operator configuration
    built at run time and runs it. `eval` resolves operator nodes in a computed
    value and evaluates the result. `err` reports the scope's error.
  - The generic evaluator's other operators, the operator factory, the resolver
    and `stringifyError` are parameters (`Env`).
  - Evaluation is bounded by fuel, spent only where `call`, `exec` and `eval`
    run code that is not part of the expression itself.
- **The total order on JSON values** (module `Json`, file `json.dfy`).
  - Primitives come before arrays, and arrays before records. `null` comes
    first among primitives.
  - Arrays compare by length, then element by element. Records compare their
    key lists, then their values in key order.
  - The comparator appears twice: as specification functions, about which the
    ordering laws are proved, and as the source's `while` loops, each proved to
    compute its specification function.
- **The metadata extraction combinators** (module `Extractors`, file
  `extractors.dfy`).
  - `findAndExtract` is a `for` loop proved against a first-hit function.
  - Also covered: `find`, `jsonQuery`, `stringify`, the trim-or-null rule of
    `innerHTML`/`textContent`, and the parse-or-null rule of `fromJSON`.
- **The `quote` Handlebars helper of the sandbox** (module `Sandbox`, file
  `sandbox.dfy`).
  - It prefixes every line of a string with `"> "` and passes other values
    through unchanged.
  - Proved: it replaces each newline with newline + `"> "`, and it round-trips.

`wrappers.dfy` holds the shared `Option` type.

## Model

| member | source | states |
|---|---|---|
| SysOperators.DefineScope | src/lib/operators/sys.ts:42-51 | the scope `for` runs in has the parent's keys plus the new ones; a new constant or function wins on a clash, every other key keeps the parent's binding; context and error are the parent's; without new constants or functions those maps are the parent's |
| SysOperators.DefineConstantsNotObject | src/lib/operators/sys.ts:34-40 | given (truthy) `constants` that evaluate to a non-record make `define` fail with "Constants must be an object" for every `for`, so `for` is never evaluated |
| SysOperators.DefineEvaluatesBodyInExtendedScope | src/lib/operators/sys.ts:33-51 | otherwise `define` is `for` evaluated in the parent scope extended with the functions and the evaluated constants; a falsy literal `constants` adds none |
| SysOperators.DefineBindingDoesNotLeak | src/lib/operators/sys.ts:42-51 | `define {a: 1} for get "a"` gives 1, while `get "a"` in the unchanged parent scope still fails with "Constant a is not defined" |
| SysOperators.CallNameNotString | src/lib/operators/sys.ts:65-68 | a function name that evaluates to a non-string fails with that value named, whatever `arg` is; no function runs |
| SysOperators.CallUndefinedFunction | src/lib/operators/sys.ts:69-72 | a name absent from the scope's functions fails with "Function <name> is not defined", whatever `arg` is; no function runs |
| SysOperators.CallRunsFunction | src/lib/operators/sys.ts:73-75 | a defined function runs on the calling scope, with only the context replaced by the evaluated `arg` when `arg` is truthy, and on the scope unchanged otherwise |
| SysOperators.CallFalsyArgIgnored | src/lib/operators/sys.ts:74 | a falsy literal `arg` (`0`, `""`, `false`, `null`, `undefined`) behaves exactly as no `arg` |
| SysOperators.GetNameNotString | src/lib/operators/sys.ts:92-95 | a constant name that evaluates to a non-string fails with that value named, whatever the default |
| SysOperators.GetBoundConstant | src/lib/operators/sys.ts:96-99 | a bound constant other than `undefined` is returned for every `default`, including one whose evaluation would fail |
| SysOperators.GetMissingConstant | src/lib/operators/sys.ts:100-103 | otherwise a supplied default is evaluated in the same scope, and without one `get` fails with "Constant <name> is not defined" |
| SysOperators.GetUndefinedIsUnbound | src/lib/operators/sys.ts:96-103 | with a literal name and a literal or absent default, reading a constant bound to `undefined` gives the same outcome as reading one that is not bound |
| SysOperators.OperatorConfig | src/lib/operators/sys.ts:129-138 | no `config` gives `{[OPERATOR_KEY]: op}`; a non-record config fails with "Config must be an object"; a record keeps its other keys and has the tag key overridden by `op` |
| SysOperators.ExecConfigNotObject | src/lib/operators/sys.ts:133-136 | an `exec` whose `config` evaluates to a non-record fails with "Config must be an object"; nothing is compiled |
| SysOperators.ExecCompileError | src/lib/operators/sys.ts:129-141 | a configuration that fails to compile is the result whatever `arg` is: compiling precedes evaluating `arg` |
| SysOperators.ExecRunsCompiledOperation | src/lib/operators/sys.ts:139-145 | the compiled operation runs with the evaluated `arg` as context when `arg` is defined, else the current context; constants, functions and error are the current scope's |
| SysOperators.EvalRunsResolvedTree | src/lib/operators/sys.ts:162-168 | `eval` evaluates `expression` once, resolves its value, and evaluates the resolved tree in the same scope |
| SysOperators.EvalMatchesStatic | src/lib/operators/sys.ts:162-168 | a tree built at run time and resolved by `eval` gives the same result as the same tree written statically (one more unit of fuel) |
| SysOperators.ErrReportsScopeError | src/lib/operators/sys.ts:176-178 | `err` is the stringified scope error, and scopes with the same error give the same result |
| Json.ComparePrimitive | src/lib/json.ts:16-24 | the primitive comparison is always -1, 0 or 1 |
| Json.PrimitiveAntisymmetric | src/lib/json.ts:16-24 | swapping two primitives negates their comparison |
| Json.StringCompareZero | src/lib/json.ts:23 | two strings compare equal exactly when they are the same string |
| Json.CompareValue | src/lib/json.ts:78-83 | `compareJsonValue` is always -1, 0 or 1 |
| Json.CompareJsonValue | src/lib/json.ts:78-83 | the imperative `compareJsonValue` computes the specification comparator |
| Json.CompareJsonObjects | src/lib/json.ts:68-76 | the imperative `compareJsonObjects` computes the specification comparator on arrays and records |
| Json.CompareJsonArray | src/lib/json.ts:26-43 | the length check and `while` loop with early return compute the array comparison |
| Json.CompareJsonRecords | src/lib/json.ts:45-66 | the key-list comparison through `compareJsonArray` and the `while` loop over the keys compute the record comparison |
| Json.CompareReflexive | src/lib/json.ts:16-83 | every JSON value compares equal to itself |
| Json.CompareAntisymmetric | src/lib/json.ts:16-83 | `compareJsonValue(a, b) == -compareJsonValue(b, a)` for all values |
| Json.KindOrder | src/lib/json.ts:72-82 | every primitive is below every array or record, and every array below every record, in both argument orders |
| Json.NullLeast | src/lib/json.ts:20-23 | `null` equals `null` and is below every other primitive |
| Json.ShorterArrayFirst | src/lib/json.ts:27-32 | a shorter array is below a longer one, whatever the elements |
| Json.ArrayAllEqual | src/lib/json.ts:33-42 | equal-length arrays compare equal exactly when every pair of elements does |
| Json.ArrayFirstDifference | src/lib/json.ts:33-42 | otherwise equal-length arrays compare as their first unequal pair of elements |
| Json.CompareKeysAsArray | src/lib/json.ts:49-51 | comparing two key lists is `compareJsonArray` on them as arrays of strings |
| Json.CompareKeysZero | src/lib/json.ts:49-54 | key lists compare equal only when they are the same list |
| Json.RecordsKeysFirst | src/lib/json.ts:49-54 | records with different key lists are ordered by those lists, and never compare equal |
| Json.RecordsSameKeys | src/lib/json.ts:55-65 | records with the same key list are ordered by the loop over their values |
| Json.RecordsAllEqual | src/lib/json.ts:55-65 | records with the same key list compare equal exactly when the values under every key do |
| Json.RecordsFirstDifference | src/lib/json.ts:55-65 | otherwise they compare as the values under the first key, in the first record's order, whose values differ |
| Extractors.FirstExtracted | src/lib/metadata/extractors.ts:63-70 | the first hit is null exactly when every element extracts to null (the empty list included), and otherwise is some element's extraction |
| Extractors.FindAndExtract | src/lib/metadata/extractors.ts:60-72 | the `for` loop with early return computes the first non-null extraction |
| Extractors.FirstExtractedAt | src/lib/metadata/extractors.ts:63-68 | the result is the extraction of the element at the smallest position whose extraction is non-null |
| Extractors.FirstExtractedIgnoresRest | src/lib/metadata/extractors.ts:64-67 | once a prefix holds a hit, elements appended after it never change the result |
| Extractors.Find | src/lib/metadata/extractors.ts:53-55 | `find` is null exactly when no element satisfies the predicate, and otherwise is an element that does |
| Extractors.FindIsFirstExtracted | src/lib/metadata/extractors.ts:53-55 | `find(p)` is `findAndExtract` with "the element if it satisfies `p`, else null", so it returns the first such element |
| Extractors.JsonQueryTruncatesStrings | src/lib/metadata/extractors.ts:48-49 | on a single string match "Alice" the code as written yields "A" where "Alice" is intended |
| Extractors.JsonQueryThrowsOnNoMatch | src/lib/metadata/extractors.ts:48-49 | with no match the code as written throws where null is intended |
| Extractors.JsonQueryIsValueOrNull | src/lib/metadata/extractors.ts:46-51 | the intended `jsonQuery` is jsonpath's single value or null when nothing matches: one of the matches or null, unchanged by later matches |
| Extractors.JsonQueryAsWrittenDiffers | src/lib/metadata/extractors.ts:46-51 | for every list of matches, the code as written throws exactly when nothing matches or the first match is null, and differs from the intended first match whenever that match is a string of two or more characters, a number or a boolean |
| Extractors.StringifyIdempotent | src/lib/metadata/extractors.ts:36-38 | every string is returned unchanged, so stringifying the result of `stringify` changes nothing |
| Extractors.TrimSpec | src/lib/metadata/extractors.ts:21 | `trim()` removes exactly the leading and trailing ECMAScript white space and line terminators |
| Extractors.TrimEmptyIffWhiteSpace | src/lib/metadata/extractors.ts:21 | a string trims to `""` exactly when it is all white space |
| Extractors.TrimOrNull | src/lib/metadata/extractors.ts:21 | `text.trim() \|\| null` is null exactly when the text is all white space, and otherwise the non-empty trimmed text |
| Extractors.InnerHtml | src/lib/metadata/extractors.ts:20-22 | `innerHTML` is the trimmed markup, or null when it is only white space |
| Extractors.TextContent | src/lib/metadata/extractors.ts:24-26 | `textContent` is null when the node has none or it is only white space, and otherwise the trimmed text |
| Extractors.FromJsonNull | src/lib/metadata/extractors.ts:28-34 | a parse failure gives null instead of an error and a successful parse gives the parsed value, so `fromJSON` is null exactly when parsing failed or the text was the JSON `null` |
| Sandbox.Lines | src/sandbox/index.ts:14 | `split("\n")` gives at least one piece, and no piece contains a newline |
| Sandbox.QuoteHelper | src/sandbox/index.ts:13-15 | non-string arguments pass through unchanged; a string gives a string starting with `"> "` |
| Sandbox.QuoteReplacesNewlines | src/sandbox/index.ts:14 | `quote(s)` is `"> "` followed by `s` with every newline replaced by newline + `"> "`; `quote("")` is `"> "` |
| Sandbox.QuoteKeepsNewlines | src/sandbox/index.ts:14 | quoting keeps the number of newline characters |
| Sandbox.QuoteLines | src/sandbox/index.ts:14 | the quoted text has as many lines as the text, and its line `i` is `"> "` + line `i` |
| Sandbox.QuoteRoundTrip | src/sandbox/index.ts:14 | removing the leading `"> "` of every line of `quote(s)` gives back `s` |

## Left out

- Json.ComparePrimitive: two primitives of different types (say a number and a string) compare 0. The source compares them with JavaScript's coercing `<` and `>`, which is not modelled. For the same reason, Json.CompareAntisymmetric and Json.CompareReflexive hold for all values in the model. In the source, antisymmetry is only meant where every compared pair of primitives shares a type.
- Json.StringLess: strings compare by Unicode character, not by UTF-16 code unit. The two orders differ only for characters outside the Basic Multilingual Plane.
- Numbers are unbounded integers. Floating point, `NaN` and `-0` are not modelled: only the ordering of numbers is used.
- A JSON record is a sequence of members in insertion order, as `Object.keys` reports them. The model admits duplicate keys, which a JavaScript object cannot have; `Json.Lookup` takes the first member with the key, and the comparison lemmas hold for every member sequence. The ordering JavaScript gives integer-like keys is not modelled.
- Extractors.JsonQueryAsWritten: for a string match, the result is its first Unicode character, where JavaScript's `values[0]` gives its first UTF-16 code unit. The two differ when the string starts with a character outside the Basic Multilingual Plane.
- Extractors.JsonQueryAsWritten: a match that is a record with its own `length` member gives "not modelled". What the code as written then returns depends on that member's JavaScript truthiness and comparison.
- Extractors.Find: `find(p)` cannot tell "no element satisfies p" from "the first element satisfying p is `null`/`undefined`", because the source maps both to null through `?? null`. In the model, elements are never null.
- The DOM (`query`, `queryAll`, `attr`, `queryAttr`, `queryTextContent`), `jsonQueryAll`, `jsonldJsonQuery`, `flow` and the fallback combinators are not modelled. Neither are the markup and text the browser computes for an element. `innerHTML`/`textContent` take that text as input.
- `JSON.parse` and `JSON.stringify` are parameters, and so are jsonpath's matches (`jp.value` and `jp.query`). Their own behaviour is not modelled.
- Schema validation (Zod) is not modelled. Operator configurations are datatypes that are already validated. The model allows any expression where a schema would demand a record (for example `define`'s `constants`).
- Every expression is either a literal value or an operator node. Arrays and records that contain operator nodes below their top level are not modelled.
- `evalInScope`, the operator registry, the operators registered by the host application, `traverseJsonLike`, `stringifyError` and `OPERATOR_KEY` are not part of this model. They are the parameters in `SysOperators.Env`.
- Promises and `async`/`await` are not modelled. Operators are synchronous and return a value or an error. Errors are `SysOperators.Error` values, and `SysOperators.Message` gives the texts.
- SysOperators.Evaluate: fuel bounds the number of nested `call`, `exec` and `eval` runs. An evaluation that needs more fails with `OutOfFuel`, where the source would keep running (or exhaust the stack). `EvaluateFuelMonotone` shows that any result other than `OutOfFuel` does not depend on the fuel given.
- Lookups in `scope.constants` and `scope.functions` see only the keys bound in the scope. Properties inherited from `Object.prototype` (such as `toString`) are not modelled.
- The rest of `src/sandbox/index.ts` is not modelled: Handlebars compilation, the `json` helper, Ajv validation, `eval` and the sandbox actor.

## Findings

| source | as written | input that shows it | evidently intended | confidence | as-written member | corrected member |
|---|---|---|---|---|---|---|
| src/lib/metadata/extractors.ts:48-49 | `jp.value(value, selector)` returns the first match itself, yet the code treats it as the list of matches (`values.length > 0 ? values[0] : null`) | value `{"name": "Alice"}` with selector `$.name`: the code yields `"A"`; with a selector that matches nothing, reading `length` of `undefined` throws | the first match (`"Alice"`), or `null` when nothing matches | medium: rests on jsonpath's documented `value` returning a single match; not executed | Extractors.JsonQueryTruncatesStrings | Extractors.JsonQuery |

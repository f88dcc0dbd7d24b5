# swole: parameter validation and request step order, modelled in Dafny

swole is an HTTP middleware for APIs described by an OpenAPI (Swagger) 2.0
document. For every path of the document it registers a route with a router.
The route's path template `/users/{id}` is rewritten into the router's
`/users/:id` form. For every operation it runs four steps per request, in a
fixed order: validate the path, query and header parameters; decode the JSON
body; validate the body; call the application's handler.

This project models the two self-contained pieces of that logic and proves
properties about them:

- `validate.js` (module `Validate`, file `validate.dfy`):
  - building the three-slot parameter schema (`createSchemas`);
  - folding an operation's Parameter Objects into that schema (the reducer of `Parameters`);
  - the parameter validator (`validateParameters`);
  - the body validator (`body`).
- `index.js`:
  - the path-template rewrite `toColon` (module `PathTemplate`, file `path_template.dfy`);
  - route registration (`createRoutes`) and the step sequence of `handle` (module `Swole`, file `swole.dfy`).

`outcomes.dfy` holds the shared value types. `Completion` says how an
operation treats its Node-style callback: called once with no error, called
once with an error, or never called. `Verdict` is the schema validator's
answer.

The JSON-Schema validator (Ajv) is not modelled. Every member that validates
takes it as a function parameter that maps a schema and the data to a
`Verdict`. The router, the JSON decoder and the handler are represented only
by how each step completes.

`toColon` uses the regular expression `/{(.*?)}/g`. Its scan is modelled as a
segmentation of the path into single literal characters and `{name}`
templates. `ScanUnique` proves that this segmentation is the only one that is
leftmost and non-greedy. Such a segmentation closes each `{` that opens a
template at the first `}` after it; a `{` inside a name, as the second one in
`{{a}`, is part of the name. It leaves a `{` unchanged when no `}` can be
reached after it.
The `.` of the pattern does not match line terminators. So a `{` whose first
`}` comes after a newline, carriage return, U+2028 or U+2029 stays literal.

Parameter validation is one Ajv check over the query, header and path
groups together; which errors it reports is left out with Ajv. Later versions
of swole add deprecation checks, pre-handler hooks, `basePath`, lower-casing,
typed errors and response validation; none of them exists in this code.
`body` does not report an invalid body: see Findings.

## Model

| member | source | states |
|---|---|---|
| `Validate.AddSlots` | validate.js:54-63 | the reduce over the keys adds exactly the given keys, each with an empty slot schema for that key; keys already in the accumulator and not among them keep their value |
| `Validate.CreateSchemas` | validate.js:49-65 | the result is an object schema titled "HTTP parameters" whose `properties` keys are exactly the given keys; each slot is an object schema with an empty `properties` map, title `HTTP <key>` and description `HTTP <key> parameters schema for '<method> <path>'` |
| `Validate.SkeletonSlots` | validate.js:32 | the skeleton built for `['header','query','path']` has exactly those three slots and no `body` slot |
| `Validate.FileParameter` | validate.js:28-31 | the reducer leaves the schema unchanged for a body parameter. It fails when the parameter's location has no slot (the model's error records the parameter; see Left out). Otherwise it stores the parameter under `properties[in].properties[name]`, replacing an entry of the same name, and keeps the schema's title, description and type, every other entry, every slot key and every slot's other fields |
| `Validate.FileAll` | validate.js:28-32 | the reduce succeeds exactly when every non-body parameter has a slot. On failure it reports the first parameter without a slot. On success the result is the initial schema with each slot holding `Filed(params, slot)` |
| `Validate.AssembleSchema` | validate.js:27-32 | the schema handed to the compiler exists exactly when every non-body parameter is located in header, query or path. It then equals the `createSchemas` skeleton with each slot filled from the parameter list. Otherwise the first offending parameter is reported |
| `Validate.FiledNames` | validate.js:29-30 | a name is present in the slot of a location exactly when some parameter of the list has that location and name, and the location is not `body` |
| `Validate.FiledLastWins` | validate.js:30 | when several parameters share a location and a name, the last one in list order is the one stored |
| `Validate.FiledFromList` | validate.js:29-30 | every stored entry is a parameter of the list with the slot's location and the entry's name, so never a body parameter |
| `Validate.AssembledSlots` | validate.js:28-32 | the assembled schema has exactly the header, query and path slots. A name is present in a slot exactly when a parameter of the list has that location and name. No stored entry is a body parameter |
| `Validate.ValidateParameters` | validate.js:34-46 | sets the request's params to the path captures and leaves query and headers unchanged. It validates `{query, header: headers, path: params}` against the compiled schema and calls back exactly once: with no error if valid, otherwise with the serialised error list |
| `Validate.Parameters` | validate.js:27-46 | the reduce in `Parameters` fails exactly when some non-body parameter is located outside header, query and path (the model records the first one), and then the request is left alone. Compilation is taken to succeed. Otherwise one call of the closure it returns sets the request's params to the path captures and validates the request against the assembled schema, the `createSchemas` skeleton filled from the parameter list: it calls back exactly once, with no error exactly when that check passes, otherwise with its serialised errors |
| `Validate.FindBody` | validate.js:16 | `find` yields nothing exactly when no parameter is located in `body`. Otherwise it yields the position of the first such parameter |
| `Validate.Body` | validate.js:15-20 | `body` calls back with no error exactly when there is no body parameter or the body is valid against the first one. It never passes an error. It does not call back exactly when the first body parameter rejects the body |
| `Validate.InvalidBodyNeverCallsBack` | validate.js:18-19 | an operation with one body parameter and a rejected body gets no callback from `body` |
| `Validate.CheckBody` | validate.js:15-20 | the corrected body validator always calls back. It passes no error under the same conditions as `body`, and passes the first body parameter's serialised errors exactly when that parameter rejects the body |
| `Validate.CheckBodyAgrees` | validate.js:15-20 | wherever `body` calls back, the corrected validator gives the same answer. Where `body` stays silent, the corrected validator reports an error |
| `PathTemplate.CloseIndex` | index.js:41 | the lazy group stops at the first `}` after the `{`, provided no line terminator comes before it. When no such `}` exists, the `{` does not start a match |
| `PathTemplate.ToColon` | index.js:40-42 | the result is shorter than the path by exactly the number of templates replaced. It equals the path exactly when the path holds no `{` from which the pattern matches |
| `PathTemplate.Scan` | index.js:41 | the global scan consumes at least one character per segment, yields no segments exactly for the empty path, and keeps a leading character other than `{` as a literal; its full characterisation is `ScanRoundTrip`, `ScanWellFormed` and `ScanUnique` |
| `PathTemplate.ScanRoundTrip` | index.js:41 | the scan loses and reorders nothing: writing the templates back as `{name}` gives the original path |
| `PathTemplate.ScanWellFormed` | index.js:41 | the scan is leftmost and non-greedy. Template names hold no `}` and no line terminator. A `{` is kept as text only when no `}` can be reached after it |
| `PathTemplate.ScanUnique` | index.js:41 | the scan is the only leftmost, non-greedy segmentation of the path |
| `PathTemplate.ScanFindsTemplates` | index.js:41 | the scan finds at least one template exactly when the path holds a `{` from which the pattern matches |
| `PathTemplate.ColonLength` | index.js:41 | rewriting `{x}` to `:x` shortens the text by one character per template |
| `PathTemplate.ColonWithoutTemplates` | index.js:41 | without templates the rewrite changes nothing |
| `PathTemplate.ToColonTemplate` | index.js:39-41 | text before the first `{` is kept. The first `{name}` becomes `:name`, and rewriting continues after its `}`. So `/{foo}/bar/{baz}` becomes `/:foo/bar/:baz` and `{a}{b}` becomes `:a:b` |
| `PathTemplate.ToColonUnclosed` | index.js:41 | a `{` with no `}` after it is left unchanged |
| `Swole.CreateRoutes` | index.js:18-22 | the router table gains exactly the table that registering every entry of `paths`, in document order, under its `toColon` form produces |
| `Swole.RegisteredPatterns` | index.js:20-22 | a pattern is registered exactly when it is the `toColon` form of some path of the document |
| `Swole.RegisteredOperations` | index.js:20-21 | a path whose router form no later path shares is registered with its own operations |
| `Swole.Handle` | index.js:28-35 | the steps run in the fixed order: parameter validation, JSON decode, body validation, handler. Every step but the last one run succeeded. The completion gets the last step's outcome. The handler runs exactly when the three earlier steps all succeeded, and the request succeeds exactly when all four do |

## Left out

- Ajv is left out: schema compilation, validation, `coerceTypes` coercion and the contents of its error list. The validator is a function parameter, and its serialised error list is an opaque string.
- `Validate.Parameters` and `Validate.FileParameter` record the offending parameter in `NoSlot(name, location)`. The source's error is the TypeError from reading `properties` of an undefined slot, and it names neither. A throw from `ajv.compile` itself, for instance when Ajv rejects the assembled schema, is not modelled: compilation is taken to succeed.
- `Validate.Parameters` models one call of the returned closure. The compiled validator is reused unchanged for every request, and the model does not follow a sequence of requests.
- `Validate.ValidateParameters` leaves out Ajv's in-place coercion. Ajv rewrites the objects it validates, and those objects are `req.query`, `req.headers` and `req.params` themselves, so the handler sees coerced values. The model keeps the request's maps as they were.
- The response gate is left out. `response.js` only forwards to the external `delayed-response` package, and `response` in `validate.js` is an empty function.
- Routing by `http-hash-router` is left out, including how it resolves a request and whether it rejects conflicting patterns. `Swole.CreateRoutes` treats the router table as a map in which a later registration of the same pattern replaces the earlier one.
- JSON body decoding, the handler and the helpers `map`, `serial` and `partial` are not modelled. `Swole.Handle` takes each step's outcome as a parameter. It treats `serial` only as "run in order, stop at the first step that does not succeed".
- `Swole.Handle` takes each step's outcome as fixed in advance. It does not model how one step's effects on the request, such as params set or body decoded, shape a later step's outcome.
- The wiring of `index.js` is not modelled: the `Swole` function and the closures that `Route` returns. `swagger` and `body` are unbound at index.js:19-20. `Validate(data)` is called with one argument of three. `validate.params` is used where `validate.js` exports `parameters`. `response.wrap` is called as `(validator, res)` but declared as `(req, res, validate)`. Each function is modelled from its own text.
- `Validate.AssembleSchema` and `Validate.FindBody` take the parameter list as given. An operation without a `parameters` array makes `reduce` and `find` throw, and that case is not modelled.
- `Validate.FileParameter` does not model parameters named `__proto__`. Assigning such a name replaces the slot object's prototype instead of adding an entry.
- Node's request and response objects, callbacks as functions, and event emitters are not modelled. A `Completion` value stands for how a callback was invoked.

## Findings

| source | as written | input that shows it | evidently intended | confidence | as-written member | corrected member |
|---|---|---|---|---|---|---|
| validate.js:18-19 | when the body fails validation against the first body parameter, `body` returns without calling its callback. The request's step sequence then never completes and the handler never runs | an operation with one `in: body` parameter and a request body the validator rejects | call back with an error carrying the validator's errors, as `validateParameters` does | not executed; high | `Validate.InvalidBodyNeverCallsBack` (on `Validate.Body`) | `Validate.CheckBody` |

# Link registry of a platform-aware URL redirector

This project models the link registry of a small redirect server. Clients register a
short slug with up to three target URLs (`ios`, `android`, `default`). Visitors to the
slug are redirected to the target for their platform. The registry is a map from slug
to entry. Registration is create-only. A reconciliation step fills every missing
target from the targets that were supplied. After every change the whole map is
written to a links file, and the map is loaded back from that file at startup.

Modules:

- `Options`, `Json` (json.dfy): optional values, and JSON values. Request bodies and
  the links file are both modelled as parsed JSON.
- `Links` (links.dfy): entries, the schema check of a registration body, JavaScript
  `||` on optional strings, and reconciliation with its fallback orders.
- `Persistence` (persistence.dfy): the startup load with its schema check and
  empty-map fallback, and the document written after each change.
- `Resolution` (resolution.dfy): the choice of platform from the user-agent flags.
- `Registry` (registry.dfy): the registration decision, the request-by-request
  evolution of the map, and the class `LinkRegistry`. The class holds the map in a
  field, and its `Register` method updates it in place behind early-return guards
  in the handler's order. Its conflict guard is the corrected one (own slugs only),
  not the handler's test as written (see "## Findings").

URL validity comes from a helper module that is not part of this model. The model
takes it as a total function `validUrl: string -> bool`, fixed when the registry is
created, and assumes nothing else about it.

One might expect every stored entry to hold three non-empty, valid URLs. The startup
load only checks that the three fields are strings, and the model follows the code.
So the registry's invariant
(`LinkRegistry.Valid`) claims well-formedness only for entries added since startup.
Loaded entries are kept unchanged.

The code's order of checks is also kept. After the empty-slug and conflict checks,
schema validation (which includes URL validity) runs before the empty-body check. So
a body of any shape sent to a slug that is already taken gets 403, not 422.

## Model

| member | source | states |
|---|---|---|
| `Links.Or` | index.mjs:69-71 | JavaScript `x \|\| y` on optional strings: the result is truthy exactly when either operand is, it is one of the operands, and a truthy left operand wins |
| `Links.ParseBody` | index.mjs:47-55 | a body passes the schema exactly when it is an object whose present `ios`/`android`/`default` members are strings that are valid URLs; the parsed fields are exactly the present members, each a valid URL |
| `Links.Reconcile` | index.mjs:68-72 | when at least one field is non-empty, every reconciled target is non-empty and is one of the supplied non-empty values |
| `Links.ReconcileFollowsPriority` | index.mjs:69-71 | each target is the first non-empty field in its own fallback order (android: android, default, ios; ios: ios, default, android; default: default, android, ios), read from the original fields |
| `Links.ReconcileKeepsSupplied` | index.mjs:68-72 | a non-empty field is kept as its own platform's target |
| `Links.ReconcileAllSupplied` | index.mjs:68-72 | with all three fields supplied, the entry equals the input |
| `Links.ReconcileSingle` | index.mjs:68-72 | a single supplied URL becomes all three targets |
| `Links.ReconcileIosPrefersDefault` | index.mjs:70 | with `android` A and `default` D but no `ios`, the iOS target is D |
| `Links.ReconcileWellFormed` | index.mjs:65-72 | a body that passes the schema and the empty check reconciles into three non-empty valid URLs |
| `Persistence.Load` | index.mjs:16-35 | a read or parse failure, or any stored value without string `ios`, `android` and `default`, gives the empty map; otherwise the map has exactly the document's slugs with their three strings; loading never fails |
| `Persistence.EntryToJson` | index.mjs:41 | the stored form of an entry passes the entry schema and reads back as the same entry |
| `Persistence.Serialize` | index.mjs:40-42 | the written document passes the load schema and has exactly the map's slugs |
| `Persistence.LoadSerialize` | index.mjs:16-42 | loading the written document restores the map it was written from |
| `Resolution.Classify` | index.mjs:93-105 | Android clients get `android` (tested before the Apple flags), iPhone/iPad/Mac clients `ios`, everyone else `default`; each case holds exactly when its flags say so |
| `Registry.Decide` | index.mjs:56-80 | registration is accepted exactly when the slug is non-empty and new, the body passes the schema and supplies a URL; a taken slug gives 403, every other rejection 422; an accepted entry is the reconciliation and is well-formed |
| `Registry.Step` | index.mjs:56-106 | one request keeps every existing slug's entry; an accepted registration adds exactly its slug with the decided (reconciled) entry; a rejected registration or a resolution leaves the map unchanged |
| `Registry.RunKeepsEntries` | index.mjs:60-62 | over any sequence of requests, a slug once present keeps its first entry |
| `Registry.RunAddsWellFormed` | index.mjs:57-74 | over any sequence of requests, every slug added is non-empty with a well-formed entry |
| `Registry.RegisterThenResolve` | index.mjs:68-105 | after an accepted registration, resolving the slug sends every visitor to a non-empty valid URL: the first supplied one in the fallback order of the visitor's platform |
| `Registry.DecideAsWritten` | index.mjs:60-62 | the conflict test as written; it differs from the intended registration only on a slug that is an inherited name and not a registered slug, which it refuses with 403 |
| `Registry.InheritedSlugConflicts` | index.mjs:60-62 | on an empty registry, the code as written refuses the slug `constructor` with 403; the intended registration accepts it |
| `Registry.LinkRegistry.constructor` | index.mjs:16-42 | startup loads the map from the document and writes it straight back; reloading what was written gives the map |
| `Registry.LinkRegistry.Register` | index.mjs:56-81 | follows the corrected decision `Decide`, not the conflict test as written (inherited names are not treated as taken); a rejected registration answers with the decided status and leaves the map and the written document unchanged; an accepted one answers 200, inserts exactly the slug with its reconciled entry, and writes the whole new map |
| `Registry.LinkRegistry.Resolve` | index.mjs:83-106 | 404 exactly for an empty or unknown slug; otherwise a redirect to the target of the visitor's platform, which for an entry added since startup is a non-empty valid URL |

## Left out

- HTTP plumbing (routing, `res.sendStatus`, `res.redirect`, `app.listen`): handlers return an `Outcome`, a status code or a redirect URL.
- Body parsing errors: a body that is not valid JSON is refused by the JSON middleware before the handler runs. The model starts from the parsed body.
- User-agent parsing is a foreign library. Its four flags `isAndroid`, `isiPhone`, `isiPad` and `isMac` are inputs. A request without a parsed user agent has all four false.
- `stringIsAValidUrl` is not part of this model. It is the parameter `validUrl`.
- File I/O, `JSON.parse` and `JSON.stringify`: the loaded file is an optional JSON value, with None for a read or parse failure. The written file is the JSON value `persisted`. A failed write is not modelled, because the source does not report it.
- Reactivity of the observable store: the automatic write after each change is an explicit assignment of `persisted` at startup and after each accepted registration.
- JSON numbers are modelled as integers. No part of the registry looks inside a number.
- Logging with `console.log`.
- Registry.LinkRegistry.Register: its conflict guard tests only registered slugs, as `Decide` does; the handler as written also answers 403 for inherited names such as `constructor` (modelled separately by `Registry.DecideAsWritten`).
- Resolution of an inherited property name (`GET` on `constructor`, say) reads an inherited value from the links object. The model treats such a slug as unknown.

## Findings

| source | as written | input that shows it | evidently intended | confidence | as-written member | corrected member |
|---|---|---|---|---|---|---|
| index.mjs:60-62 | the conflict test `!!links[slug]` is true for names every object inherits (`constructor`, `toString`, `__proto__`, ...) | `POST /r/constructor` with body `{"default": "https://example.com"}` on an empty registry answers 403 | refuse only slugs that were registered | high, not executed | `Registry.DecideAsWritten` | `Registry.Decide` |

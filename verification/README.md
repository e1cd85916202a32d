# Product catalog: validation and state transitions

This project models the state machine of the `App` component of a small
React product manager (`src/App.js`). The component keeps a list of
products fetched from a REST collection. It also keeps an "add" form, an
optional "edit" form, a banner for the last remote error, and one
validation-error map for each form. Its handlers validate a form, send a
GET, POST, PUT or DELETE, and update the list from the response.

The model is functional. `Catalog.State` holds the six `useState` slots.
Each handler is a pure function of the state. A handler that awaits a
request also takes the request's outcome (`Results.Outcome`: the
response body, or the rejection's message) and returns a `Catalog.Step`.
A `Step` holds the new state and the request it sent. `None` means the
handler returned before any request. The modules are:

- `Results`: `Option` and `Outcome`.
- `Text`: `String.prototype.trim` over the ECMAScript whitespace set
  (sections 12.2 and 12.3 of ECMA-262).
- `Products`: the product record, the form draft, and the coerced price.
- `Validation`: `validateProduct`, together with a field-by-field
  reference verdict (`Expected`) that it is proved to agree with.
- `ProductList`: the `filter` and `map` by identifier used on delete and
  update. Each is given as a recursive definition and as the index loop
  the array method runs.
- `Catalog`: the state, the seven handlers, the inputs' `onChange`
  handlers and the Save button, events, runs of events and the state
  invariant.
- `CatalogProperties`: properties that relate several calls, plus
  concrete cases.

The price is abstracted to `Empty | NotANumber | Num(amount)`, which is
how the validator sees the JavaScript value. `Empty` is any falsy value:
`''`, a missing field, or the number 0. `NotANumber` is a truthy value
that `isNaN` flags. `Num(amount)` is a truthy numeric value, so the string
`"0"` is `Num(0.0)`. Dafny's `real` is exact, so no floating point is
involved.

Three behaviours of the code are easy to miss; the model keeps them, and a
fourth follows from the remote store's answer:
- Opening the edit form (`src/App.js:158`) does not clear the edit form's
  error map.
- The error banner is never cleared. A later success leaves it as it was.
- A delete removes every entry carrying the identifier, not just one.
- A delete of an absent identifier sets no banner if the server accepts
  it. It sets the banner if the server rejects it.

## Model

| member | source | states |
|---|---|---|
| Text.TrimStartIsSuffix | src/App.js:32 | trimming the start keeps a suffix that does not begin with whitespace, and everything removed was whitespace |
| Text.TrimEndIsPrefix | src/App.js:37 | trimming the end keeps a prefix that does not end with whitespace, and everything removed was whitespace |
| Text.TrimEnds | src/App.js:32 | a non-empty trimmed string begins and ends with a non-whitespace character |
| Text.TrimEmptyIffAllWs | src/App.js:32-40 | the trimmed field is empty (falsy) exactly when every character is whitespace |
| Validation.Blank | src/App.js:32-40 | the `!field.trim()` test holds exactly for whitespace-only text, including the empty string |
| Validation.Validate | src/App.js:28-51 | `isValid` holds iff the error map is empty; each field's key is present iff that field fails its rule, with that rule's message; the checks do not short-circuit; the price gets "required" iff it is falsy, and otherwise "positive number" iff it is non-numeric or at most 0 |
| Validation.ValidateWellFormed | src/App.js:28-51 | every key the validator emits carries its own field's message, and the price carries one of its two messages |
| Validation.ValidateOnto | src/App.js:28-51 | every well-formed error map is the verdict on some draft, so well-formedness describes exactly what the validator can produce |
| ProductList.RemoveById | src/App.js:84 | the filtered list is no longer than the input, contains no entry with the id, and contains exactly the input's entries whose id differs |
| ProductList.RemoveByIdAppend | src/App.js:84 | filtering a concatenation is the concatenation of the filtered parts, so the survivors keep their order |
| ProductList.RemoveByIdLength | src/App.js:84 | the list shrinks by exactly the number of entries carrying the id, so all of them are removed and not just the first |
| ProductList.RemoveAbsentId | src/App.js:84 | filtering by an id that no entry carries returns the list unchanged |
| ProductList.RemoveByIdIdempotent | src/App.js:84 | filtering twice by the same id is the same as filtering once |
| ProductList.Filter | src/App.js:84 | the single in-order pass of `filter` computes the recursive definition |
| ProductList.ReplaceById | src/App.js:102-104 | the mapped list has the same length; each entry with the id becomes the response; each other entry is unchanged and in place |
| ProductList.ReplaceByEqual | src/App.js:102-104 | replacing by a value that every matching entry already equals returns the list unchanged |
| ProductList.Map | src/App.js:102-104 | the single in-order pass of `map` computes the recursive definition |
| Catalog.FetchProducts | src/App.js:19-26 | a GET is sent; on success the list is replaced by the response and nothing else changes; on failure only the banner changes, to the fetch prefix plus the message |
| Catalog.AddProduct | src/App.js:54-69 | a POST is sent iff the add form is valid, and its body is the form; if invalid, only the add form's error map changes, and it is replaced by the validator's verdict; if valid, that map is cleared; on success the list grows by one, the response is last, the earlier entries are unchanged, the form is reset, and the banner is kept; on failure the list and form are kept and the banner is set to the add prefix plus the message |
| Catalog.CancelAdd | src/App.js:71-74 | only the add form and its error map change: the form is reset and the map is emptied |
| Catalog.CancelEdit | src/App.js:76-79 | only the edit slot and its error map change: the slot becomes empty and the map is emptied |
| Catalog.BeginEdit | src/App.js:158 | only the edit slot changes; the edit form's error map is kept |
| Catalog.DeleteProduct | src/App.js:81-88 | a DELETE is sent with no validation; on success the list keeps exactly the entries whose id differs, in order, and nothing else changes; on failure only the banner changes, to the delete prefix plus the message |
| Catalog.EditProduct | src/App.js:90-110 | a PUT of the product under the id is sent iff the product is valid; if invalid, only the edit form's error map changes; if valid, that map is cleared; on success the length is kept, matching entries become the response, the others stay in place, and the edit slot is emptied; on failure the list and slot are kept and the banner is set to the update prefix plus the message |
| Catalog.TypeNew | src/App.js:120-131 | typing into an add-form input overwrites that one field of the add form; the other fields, the error maps and the rest of the state are kept |
| Catalog.TypeEdit | src/App.js:171-182 | typing into an edit-form input overwrites that one field of the edited product and keeps its id; nothing else changes, and with the slot empty nothing changes at all |
| Catalog.Save | src/App.js:186 | with the slot filled, Save behaves as `editProduct` on the slot's product under its own id: a PUT of it is sent iff it is valid; if invalid, only the edit form's error map changes, to the validator's verdict; if valid, that map is cleared; on success the slot is emptied, the list is mapped by the id to the response, and the banner is kept; on failure the banner is set to the update prefix plus the message and nothing else but the error map changes; with the slot empty nothing happens |
| CatalogProperties.TypedDraftIsPosted | src/App.js:120-135 | from the initial state, typing the three fields and pressing Add POSTs exactly the typed form |
| CatalogProperties.SaveSendsTypedProduct | src/App.js:171-186 | after typing into the edit form, Save PUTs the typed product under its id exactly when it passes validation |
| Catalog.InitialInv | src/App.js:8-13 | the initial state satisfies the invariant: both error maps are validator verdicts and the banner is empty or a failure report |
| Catalog.ApplyInv | src/App.js:19-186 | every handler preserves the invariant |
| Catalog.RunInv | src/App.js:19-186 | every run of events preserves the invariant |
| Catalog.ErrorOnlyOnFailure | src/App.js:19-186 | the banner changes only when a request that was sent is rejected, and then it starts with "Error " |
| Catalog.ErrorNeverCleared | src/App.js:19-186 | once the banner is set, no run of events makes it empty again |
| Catalog.ErrorStableWithoutFailures | src/App.js:19-186 | a run in which no request is rejected leaves the banner unchanged |
| Catalog.ProductsOnlyFromSuccess | src/App.js:19-186 | the list changes only through a request that was sent and succeeded |
| Catalog.SentIffRemote | src/App.js:19-186 | a request is sent exactly on fetch, on delete, and on a submit whose form is valid; typing, opening and cancelling never send one |
| CatalogProperties.InvalidSubmitIgnoresOutcome | src/App.js:54-96 | an invalid add or save does not depend on the remote outcome, because no request is made |
| CatalogProperties.BeginThenCancel | src/App.js:76-79 | opening the edit form (the Edit button at line 158) and then cancelling it is the same as cancelling; the list is untouched and the slot is empty |
| CatalogProperties.EditEchoKeepsList | src/App.js:90-110 | saving an opened entry unchanged, with a server that echoes it back, keeps the list; the form closes iff the entry is valid |
| CatalogProperties.AddThenDelete | src/App.js:54-88 | adding a product with a fresh id and then deleting that id restores the list |
| CatalogProperties.DeleteAbsentIsNoop | src/App.js:81-88 | a successful delete of an absent id changes nothing, including the banner |
| CatalogProperties.DeleteTwice | src/App.js:81-88 | a second successful delete of the same id changes nothing |
| CatalogProperties.PriceSamples | src/App.js:42-48 | absent, 0, -5 and non-numeric prices get a price message; 0.01 and 100 get none |
| CatalogProperties.AllFailuresReportedTogether | src/App.js:32-48 | a blank name, an empty description and a negative price are all reported in one verdict |
| CatalogProperties.AddScenario | src/App.js:54-69 | adding B to [A] with a server answering id 2 gives [A, B] in that order and resets the form |
| CatalogProperties.StaleEditErrors | src/App.js:158 | after a save that fails validation, opening the form on another entry still shows the old messages |

## Left out

- Rendering (src/App.js:112-193): the JSX, Bootstrap classes and per-field
  error display. This is presentation with no decisions of its own. The
  input, Add, Save, Edit, Delete and Cancel handlers inside it are
  modelled.
- axios and `API_BASE_URL` (src/App.js:2, 5, 21, 63, 83, 101). This is
  network I/O. It is replaced by the `Outcome` parameter and the `sent`
  request.
- The `useEffect` mount hook (src/App.js:15-17). This is a React lifecycle
  concern. The fetch it triggers is `Catalog.FetchProducts` from
  `Catalog.Initial`.
- Concurrency. The model does not cover interleaved requests, handlers
  that capture a stale `products` value, or double submits. Each handler
  runs to completion as one step.
- Non-string names and descriptions. Products from the server are assumed
  to carry string `name` and `description` fields. If an entry has a
  non-string one (say `null`), `trim` at src/App.js:32 or 37 throws inside
  `editProduct` before line 94; the promise rejects, no state changes and
  no message appears. The model cannot represent such an entry.
- JavaScript coercion. The model does not cover how `isNaN` and `<=` treat
  arbitrary values. The price is taken as already classified into
  `PriceInput`.
- Validation.Blank: the whitespace set follows a fixed Unicode version of
  the space separators. A different Unicode version may add or remove
  characters.

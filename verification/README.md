# Bank branch live view — Dafny model

This project models the branch-management live view of a "Cosmos Bank" admin screen
(`src/server/liveview/bank.ts`). The view is a create/list/toggle/edit/delete screen over an
in-memory store of bank branches. Every change is announced to all connected viewers on the
`"branches"` pub/sub topic.

The model is a functional state machine:

- `Schema` holds the `Branch` record and the zod `BranchSchema` bounds: `name` 2..100, and
  `manager`, `address`, `contact` 4..100, all measured in UTF-16 code units and modelled as
  sequence length. `status` defaults to false and `id` defaults to a generated value.
  It also models the liveviewjs changeset factory abstractly. The candidate is the existing
  record overlaid with the input (`{...existing, ...input}`). The changeset is valid iff the
  schema parses the candidate, and it records the failing fields. The library assumptions are
  written out in the module's header comment.
- `Store` holds the store `branchesDB` as `map<string, Branch>`: lookup, write, delete, and
  `Object.values` as a method that lists one entry per key.
- `BankView` has one function per `handleEvent` case, plus `mount` and `handleInfo`. The
  module-level store and edit target form `Shared`. One connection's `{branches, changeset,
  editBranchId}` forms `Context`. Every handler returns the new shared state, the new context,
  and the broadcast it published, if any. The id nanoid would generate is a parameter
  (`genId`). `Run` applies a sequence of events.
- `BankProps` states properties that relate several calls: coherence kept by every event and
  run, toggle as an involution, idempotent delete, update semantics, and the shared edit target.
- `Render` holds the two pure choices made by `renderBranch`: the row mode and the status label.

In these places the model follows the code rather than what a reader might expect:

- `save` publishes `"updated"` even when the changeset is invalid (line 89 is outside the `if`).
- `delete` publishes even when the id is absent.
- An invalid `update` assigns nothing: the error-bearing changeset is not put into the
  context, so no field error reaches the connection.
- `update` reads the module-level edit target. It clears only the connection's `editBranchId`;
  the module variable keeps its value. The update event is declared with an `id`, and the edit
  form's submit button carries the edited row's id (bank.ts:50, 259). Whether the client
  forwards that id is library behaviour not modelled here, so both payloads are covered.
  Suppose connection B edits `y` after connection A edits `x`:
  - If A's update payload carries `x` and no status, A's fields are written to `x`. The status
    is taken from `y`, the record under the shared target, and `y` is untouched
    (`BankProps.EditTargetSharedFromForm`).
  - If the payload has no id, A's update rewrites `y` and `x` keeps its record
    (`BankProps.EditTargetShared`).
- When the module-level target is not in the store, the existing record spreads as `{}`. This
  happens initially (`""`) or after the target was deleted. An `update` whose input alone passes
  the schema is then stored under the input's id, or under a generated id when it has none. Its
  status is false unless the input gives one (`BankProps.UpdateMissingTargetInserts`).
- `toggle-status` mutates the stored object and writes it back under the object's own id. The
  model writes the flipped record at both the looked-up key and the record's id. This is a
  single-key change whenever records are keyed by their id. Every handler preserves that
  keying (`BankProps.StepCoherent`), provided that no event id names a member inherited from
  `Object.prototype`, and no saved or updated record has the id `"__proto__"` (see "## Left out").

## Model

| member | source | states |
|---|---|---|
| `Schema.Errors` | src/server/liveview/bank.ts:18-21 | a field is reported exactly when it is missing or its length is outside its bounds |
| `Schema.Parse` | src/server/liveview/bank.ts:16-23 | the schema yields a record iff no field fails; the record is valid, carries the input's text fields, the given or generated id, and the given status or false |
| `Schema.ParseIffBounds` | src/server/liveview/bank.ts:18-21 | a candidate parses iff name has length in [2,100] and manager, address and contact each have length in [4,100] |
| `Schema.ParseDefaults` | src/server/liveview/bank.ts:17-22 | a missing status parses as false; a missing id becomes the generated id and a given id is kept |
| `Schema.ParseFromBranch` | src/server/liveview/bank.ts:16-23 | parsing a spread record returns that record exactly when it satisfies the bounds, and fails otherwise |
| `Schema.OverlayLaws` | src/server/liveview/bank.ts:114 | spreading `{}` on either side changes nothing, and a full record on top overrides every property |
| `Schema.NewChangeset` | src/server/liveview/bank.ts:29 | the changeset's candidate is existing overlaid with input; it is valid iff it has no errors, errors are exactly the failing fields, and a valid one carries the schema's parse of that candidate, which is a valid record |
| `Schema.EmptyChangeset` | src/server/liveview/bank.ts:59 | the empty changeset is invalid, has no action, and reports every text field |
| `Schema.Flipped` | src/server/liveview/bank.ts:96 | toggling negates status, keeps every other field, and keeps validity |
| `Store.Lookup` | src/server/liveview/bank.ts:93 | a lookup finds a record iff the key is stored, and then finds the stored one |
| `Store.Put` | src/server/liveview/bank.ts:80 | writing a record adds its id as a key, binds it there, leaves other keys alone, and keeps the store keyed by id and valid |
| `Store.Remove` | src/server/liveview/bank.ts:130 | deleting removes exactly that key, is a no-op for a missing key, and keeps the store keyed by id and valid |
| `Store.ListAll` | src/server/liveview/bank.ts:58 | the listing pairs its entries with the keys: each key appears exactly once, and the entry beside it is the record stored under it; with records keyed by id no record is listed twice |
| `Store.DistinctValues` | src/server/liveview/bank.ts:58 | when records are keyed by id, the store holds as many distinct records as keys, so a set of values loses no entry |
| `BankView.Mount` | src/server/liveview/bank.ts:53-62 | a new connection lists every stored record, has no edit target, and starts from the empty changeset `branchCSF({}, {})`: no action, empty candidate, invalid, reporting every field |
| `BankView.OnValidate` | src/server/liveview/bank.ts:66-71 | validate changes neither store nor edit targets and publishes nothing; the new changeset's candidate is the input, its errors are exactly the input's failing fields, and it is valid iff the input parses |
| `BankView.OnSave` | src/server/liveview/bank.ts:72-90 | a valid save stores the parsed record under its own id, changes no other key and resets the form; an invalid save keeps the store and shows the invalid changeset with its non-empty errors; both publish "updated" and list the store |
| `BankView.OnToggle` | src/server/liveview/bank.ts:91-104 | on a stored id the record's status is negated, the rest of the context is kept and "updated" is published, with no other key touched when records are keyed by id; a missing id changes nothing and publishes nothing |
| `BankView.OnEdit` | src/server/liveview/bank.ts:105-111 | edit sets the module-level and the connection edit targets to the id, leaves the store and list alone, and publishes nothing |
| `BankView.OnUpdate` | src/server/liveview/bank.ts:112-127 | a valid merge of the module-level target's record with the input is stored under the merged id alone, clears the connection target and form, keeps the module target, and publishes; an invalid merge changes nothing and publishes nothing |
| `BankView.OnDelete` | src/server/liveview/bank.ts:128-136 | delete removes exactly the id, keeps everything else, lists the store, and always publishes "updated" |
| `BankView.HandleEvent` | src/server/liveview/bank.ts:64-138 | every publication is "updated" on "branches" with the list matching the store, every store change is published, and only edit moves the module-level target |
| `BankView.HandleInfo` | src/server/liveview/bank.ts:139-145 | on "updated" the connection's list becomes the store's records and nothing else changes; any other message is ignored |
| `BankProps.InitialCoherent` | src/server/liveview/bank.ts:32-62 | the empty store with the initial "" target and a freshly mounted connection is coherent |
| `BankProps.MountCoherent` | src/server/liveview/bank.ts:53-62 | mounting on a coherent store gives a coherent connection |
| `BankProps.StepCoherent` | src/server/liveview/bank.ts:64-138 | every event keeps the store keyed by id and valid, the list equal to the store, and the connection target equal to the module target when set |
| `BankProps.RunCoherent` | src/server/liveview/bank.ts:64-138 | any sequence of events keeps a coherent connection coherent |
| `BankProps.RunLog` | src/server/liveview/bank.ts:89-135 | a run publishes only "updated" on "branches", at most once per event, and publishes whenever it changed the store |
| `BankProps.SubscriberSync` | src/server/liveview/bank.ts:139-145 | any connection handling a published message then lists the same records as the sender and the store |
| `BankProps.ToggleTwice` | src/server/liveview/bank.ts:93-103 | toggling the same id twice restores the store and the module-level target |
| `BankProps.DeleteTwice` | src/server/liveview/bank.ts:130-135 | deleting twice gives the same store and context as deleting once, and the second delete still publishes |
| `BankProps.UpdateInPlace` | src/server/liveview/bank.ts:114-118 | updating a stored target, with no input id or with the target's own id, rewrites that key only, with input fields over stored ones, the id kept and the status kept unless given |
| `BankProps.UpdateMissingTargetInserts` | src/server/liveview/bank.ts:114-118 | with the module target not stored, an update whose input alone parses stores it under the input's id, or the generated id for an id-less input; only that key changes, and the status is false unless given |
| `BankProps.EditTargetShared` | src/server/liveview/bank.ts:105-118 | after connection A edits x and connection B edits y, an update from A with an id-less input rewrites y and leaves x unchanged |
| `BankProps.EditTargetSharedFromForm` | src/server/liveview/bank.ts:105-118 | after A edits x and B edits y, A's update carrying x (the row id the edit form submits) and no status writes A's fields to x with y's status, keeps the key set and leaves y unchanged |
| `BankProps.UpdateInvalidNoop` | src/server/liveview/bank.ts:114-127 | an update whose merge fails the schema changes neither shared state nor context and publishes nothing |
| `BankProps.Scenario` | src/server/liveview/bank.ts:72-127 | saving a sample branch stores exactly one inactive record under the generated id; toggling twice restores it; an update with a one-letter name changes nothing |
| `Render.ModeOf` | src/server/liveview/bank.ts:227 | a row shows the edit form iff the connection's edit target is that branch's id |
| `Render.StatusLabel` | src/server/liveview/bank.ts:214 | the button reads "Disabled" iff status is true and "Activated" iff it is false |
| `Render.ToggleChangesLabel` | src/server/liveview/bank.ts:213-214 | toggling a branch always changes its button label |
| `Render.AtMostOneEditForm` | src/server/liveview/bank.ts:186-227 | with records keyed by id at most one listed row shows the edit form, and a stored target's row does |

## Left out

- Markup: `render`, `editButton`, `editForm` and the remaining HTML of `renderBranch`
  (bank.ts:147-264). They are built with liveviewjs template helpers whose code is not part of
  this model. Only the row-mode and label choices are modelled.
- `socket.connected` and `socket.subscribe("branches")` (bank.ts:54-55), and the
  `SingleProcessPubSub` delivery. These are transport and concurrency. A publication is recorded
  in `Outcome.sent`, and delivery is `HandleInfo` applied by the caller.
- `nanoid` (bank.ts:12, 17). This is randomness; its value is the `genId` parameter. Uniqueness
  is not assumed: a save whose generated id is already a key overwrites that record
  (`BankView.OnSave`: the keys become the old keys plus the record's id).
- zod and liveviewjs internals: error message texts, the changeset's `changes` diff, and the
  `action`-gated display of errors. Errors are modelled as the set of failing fields.
- Form values arrive as strings, but the model types `status` as an optional boolean. A
  non-boolean `status` would fail the schema, and that failure is not modelled.
- `Object.values` order. The context's list is the set of stored records; `Store.ListAll` and
  `Store.DistinctValues` relate it to the array.
- Object aliasing. The toggle mutates the record object that other connections' lists still
  hold. The model treats each context's list as a value snapshot, refreshed by `HandleInfo`.
- `console.log` (bank.ts:76): I/O.
- Store.Lookup: ids naming a member inherited from `Object.prototype` (`"constructor"`,
  `"toString"`, `"valueOf"`, `"__proto__"`, ...) are treated as absent. The store is a plain
  object literal (bank.ts:32), so `branchesDB[id]` returns the inherited member for such an id.
  The model's store is a map whose only entries are the records written to it.
- Store.Put: a write under the key `"__proto__"` is modelled as an ordinary key. In the code,
  `branchesDB[b.id] = b` on a plain object (bank.ts:32, 80, 118) with that id calls the inherited
  `__proto__` setter instead. That replaces the store's prototype and adds no own key, so
  `Object.values` (bank.ts:86, 121) does not list the record. A save or update whose payload
  carries `id: "__proto__"` therefore differs from the model.
- BankView.OnToggle: for an id naming an inherited `Object.prototype` member, the code finds a
  truthy value (bank.ts:93-94), sets its `status` (bank.ts:96), and stores it under the key
  `"undefined"`, because that value has no `id` (bank.ts:97). It then lists it and broadcasts.
  The model instead treats the id as missing, so nothing changes and nothing is broadcast.
  `BankProps.StepCoherent` and `BankProps.RunCoherent` hold only for traces free of such ids.
  The same ids reach `update` through `edit` (bank.ts:106, 114); there the inherited value has
  no enumerable own properties until a toggle gives it a `status`.
- `src/server/liveview/router.ts`: a one-entry route table with no logic.
- `BankProps.Coherent` (used by `StepCoherent` and `RunCoherent`) describes a single
  connection. With several connections, the list of a connection that has not yet handled
  `"updated"` lags behind the store, and its edit target may differ from the module-level one.

/**
 * `branchesLiveView` of src/server/liveview/bank.ts as a state machine.
 *
 * The module-level variables (`branchesDB`, `editBranchId`) form the `Shared` state that
 * every connection sees; `Context` is one connection's assigned context. Each handler
 * returns the new shared state, the new context and the broadcast it published, if any.
 * Publishing is recorded only; delivery to subscribers is `HandleInfo`, applied by the
 * caller to each subscribed context.
 */
module BankView {
  import opened Wrappers
  import opened Schema
  import opened Store

  /** `branchesDB` and the module-level `editBranchId`, which starts as "". */
  datatype Shared = Shared(db: Db, editBranchId: string)

  const InitialShared: Shared := Shared(map[], "")

  /**
   * The context of one connection. `branches` is `Object.values(branchesDB)` taken as a
   * set: the order of the array is left open, and `DistinctValues` shows no entry is lost.
   */
  datatype Context = Context(branches: set<Branch>, changeset: Changeset, editBranchId: Option<string>)

  /** The events a client sends; payloads are partial records. */
  datatype Event =
    | Validate(input: Draft)
    | Save(input: Draft)
    | ToggleStatus(id: string)
    | Edit(id: string)
    | Update(input: Draft)
    | Delete(id: string)

  /** A pub/sub message `{ type: kind }`. */
  datatype Info = Info(kind: string)

  datatype Broadcast = Broadcast(topic: string, info: Info)

  const Topic: string := "branches"
  const UpdatedKind: string := "updated"

  /** `pubSub.broadcast("branches", { type: "updated" })`, the only message ever published. */
  const Updated: Broadcast := Broadcast(Topic, Info(UpdatedKind))

  datatype Outcome = Outcome(shared: Shared, ctx: Context, sent: Option<Broadcast>)

  /** Subscription to the topic (only for a connected socket) is transport and not modelled. */
  function Mount(sh: Shared): (c: Context)
    ensures c.branches == sh.db.Values
    ensures c.editBranchId.None?
    ensures c.changeset == EmptyChangeset()
    ensures !c.changeset.IsValid() && c.changeset.errors == AllFields
  {
    Context(sh.db.Values, EmptyChangeset(), None)
  }

  /** "validate": check the input on its own, commit nothing, publish nothing. */
  function OnValidate(sh: Shared, c: Context, input: Draft, genId: string): (r: Outcome)
    ensures r.shared == sh && r.sent.None?
    ensures r.ctx.branches == c.branches && r.ctx.editBranchId == c.editBranchId
    ensures r.ctx.changeset.action == ValidateAction && r.ctx.changeset.data == input
    ensures r.ctx.changeset.errors == Errors(input)
    ensures r.ctx.changeset.IsValid() <==> Parse(input, genId).Some?
  {
    assert Overlay(EmptyDraft, input) == input;
    Outcome(sh, c.(changeset := NewChangeset(None, input, ValidateAction, genId)), None)
  }

  /**
   * "save": a valid input is stored under its own id and the form is reset; an invalid
   * one leaves the store alone and keeps the errors. Both publish "updated".
   */
  function OnSave(sh: Shared, c: Context, input: Draft, genId: string): (r: Outcome)
    ensures r.sent == Some(Updated)
    ensures r.shared.editBranchId == sh.editBranchId && r.ctx.editBranchId == c.editBranchId
    ensures r.ctx.branches == r.shared.db.Values
    ensures Parse(input, genId).Some? ==>
      var b := Parse(input, genId).value;
      && r.shared.db.Keys == sh.db.Keys + {b.id}
      && r.shared.db[b.id] == b
      && SameExcept(sh.db, r.shared.db, b.id)
      && r.ctx.changeset == EmptyChangeset()
    ensures Parse(input, genId).None? ==>
      && r.shared.db == sh.db
      && !r.ctx.changeset.IsValid()
      && r.ctx.changeset.action == SaveAction
      && r.ctx.changeset.data == input
      && r.ctx.changeset.errors == Errors(input) != {}
  {
    assert Overlay(EmptyDraft, input) == input;
    var cs := NewChangeset(None, input, SaveAction, genId);
    var db := if cs.IsValid() then Put(sh.db, cs.parsed.value) else sh.db;
    var shown := if cs.IsValid() then EmptyChangeset() else cs;
    Outcome(sh.(db := db), c.(branches := db.Values, changeset := shown), Some(Updated))
  }

  /**
   * "toggle-status": the record is mutated in place and written back under its own id,
   * so both `id` and the record's id end up holding the flipped record. A missing id
   * changes nothing and publishes nothing.
   */
  function OnToggle(sh: Shared, c: Context, id: string): (r: Outcome)
    ensures id !in sh.db ==> r == Outcome(sh, c, None)
    ensures id in sh.db ==>
      && r.sent == Some(Updated)
      && r.shared.editBranchId == sh.editBranchId
      && r.ctx == c.(branches := r.shared.db.Values)
      && id in r.shared.db
      && r.shared.db[id] == Flipped(sh.db[id])
    ensures id in sh.db && KeyedById(sh.db) ==>
      && r.shared.db.Keys == sh.db.Keys
      && SameExcept(sh.db, r.shared.db, id)
  {
    if id in sh.db then
      var b := Flipped(sh.db[id]);
      var db := sh.db[id := b][b.id := b];
      Outcome(sh.(db := db), c.(branches := db.Values), Some(Updated))
    else
      Outcome(sh, c, None)
  }

  /** "edit": both the module-level and the connection's edit target become `id`. */
  function OnEdit(sh: Shared, c: Context, id: string): (r: Outcome)
    ensures r.shared.db == sh.db && r.sent.None?
    ensures r.shared.editBranchId == id && r.ctx.editBranchId == Some(id)
    ensures r.ctx.branches == c.branches && r.ctx.changeset == c.changeset
  {
    Outcome(sh.(editBranchId := id), c.(editBranchId := Some(id)), None)
  }

  /**
   * "update": the record under the MODULE-LEVEL edit target, overlaid with the input,
   * is stored under the merged id when valid; the connection's edit target is cleared but
   * the module-level one is left as it was. An invalid merge changes nothing at all.
   */
  function OnUpdate(sh: Shared, c: Context, input: Draft, genId: string): (r: Outcome)
    ensures var cs := NewChangeset(Lookup(sh.db, sh.editBranchId), input, SaveAction, genId);
      && (!cs.IsValid() ==> r == Outcome(sh, c, None))
      && (cs.IsValid() ==>
            var b := cs.parsed.value;
            && r.sent == Some(Updated)
            && r.shared.editBranchId == sh.editBranchId
            && r.shared.db.Keys == sh.db.Keys + {b.id}
            && r.shared.db[b.id] == b
            && SameExcept(sh.db, r.shared.db, b.id)
            && r.ctx == Context(r.shared.db.Values, EmptyChangeset(), None))
  {
    var cs := NewChangeset(Lookup(sh.db, sh.editBranchId), input, SaveAction, genId);
    if cs.IsValid() then
      var db := Put(sh.db, cs.parsed.value);
      Outcome(sh.(db := db), Context(db.Values, EmptyChangeset(), None), Some(Updated))
    else
      Outcome(sh, c, None)
  }

  /** "delete": remove exactly `id` (nothing when absent) and always publish "updated". */
  function OnDelete(sh: Shared, c: Context, id: string): (r: Outcome)
    ensures r.sent == Some(Updated)
    ensures id !in r.shared.db && r.shared.db.Keys == sh.db.Keys - {id}
    ensures SameExcept(sh.db, r.shared.db, id)
    ensures r.shared.editBranchId == sh.editBranchId
    ensures r.ctx == c.(branches := r.shared.db.Values)
  {
    var db := Remove(sh.db, id);
    Outcome(sh.(db := db), c.(branches := db.Values), Some(Updated))
  }

  /** `handleEvent`. `genId` is the id nanoid would generate for the event's changeset. */
  function HandleEvent(sh: Shared, c: Context, e: Event, genId: string): (r: Outcome)
    ensures r.sent.Some? ==> r.sent == Some(Updated) && r.ctx.branches == r.shared.db.Values
    ensures r.shared.db != sh.db ==> r.sent.Some?
    ensures r.shared.editBranchId != sh.editBranchId ==> e.Edit? && r.shared.editBranchId == e.id
  {
    match e
    case Validate(input) => OnValidate(sh, c, input, genId)
    case Save(input) => OnSave(sh, c, input, genId)
    case ToggleStatus(id) => OnToggle(sh, c, id)
    case Edit(id) => OnEdit(sh, c, id)
    case Update(input) => OnUpdate(sh, c, input, genId)
    case Delete(id) => OnDelete(sh, c, id)
  }

  /** `handleInfo`: on "updated", refresh the list from the store; ignore anything else. */
  function HandleInfo(sh: Shared, c: Context, info: Info): (r: Context)
    ensures info.kind == UpdatedKind ==> r.branches == sh.db.Values
    ensures r.changeset == c.changeset && r.editBranchId == c.editBranchId
    ensures info.kind != UpdatedKind ==> r == c
  {
    if info.kind == UpdatedKind then c.(branches := sh.db.Values) else c
  }

  /** A run of one connection: what it ends in and what it published, in order. */
  datatype Session = Session(shared: Shared, ctx: Context, log: seq<Broadcast>)

  function SentLog(sent: Option<Broadcast>): seq<Broadcast> {
    if sent.Some? then [sent.value] else []
  }

  /** Apply each (event, generated id) pair in turn through `HandleEvent`. */
  function Run(sh: Shared, c: Context, trace: seq<(Event, string)>): (r: Session)
    decreases |trace|
  {
    if |trace| == 0 then
      Session(sh, c, [])
    else
      var o := HandleEvent(sh, c, trace[0].0, trace[0].1);
      var rest := Run(o.shared, o.ctx, trace[1..]);
      Session(rest.shared, rest.ctx, SentLog(o.sent) + rest.log)
  }
}

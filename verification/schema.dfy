/**
 * The `BranchSchema` of src/server/liveview/bank.ts and the changeset factory built from it.
 *
 * Assumptions about the libraries, whose code is not part of this model:
 *  - zod: `z.string().min(a).max(b)` accepts a string present with a length (in UTF-16
 *    code units, modelled as sequence length) in [a, b]; `.default(v)` supplies `v` only
 *    when the property is absent; unknown keys (the event's `type`, a CSRF token) are
 *    stripped and never reach the record.
 *  - liveviewjs `newChangesetFactory(schema)(existing, attrs, action)`: the candidate is
 *    `{...existing, ...attrs}`; the changeset is valid iff the schema parses the
 *    candidate; on success it carries the parsed record, otherwise per-field errors.
 *  - nanoid: the id it would generate is passed in as `genId`.
 */
module Schema {
  import opened Wrappers

  /** Length bounds of the schema: `name` in [2, 100], the other text fields in [4, 100]. */
  const NameMin: nat := 2
  const TextMin: nat := 4
  const TextMax: nat := 100

  /** A branch record as the schema produces it. */
  datatype Branch = Branch(
    id: string,
    name: string,
    manager: string,
    address: string,
    contact: string,
    status: bool)

  /** Every text field of `b` is within its schema bounds. */
  predicate Valid(b: Branch) {
    && NameMin <= |b.name| <= TextMax
    && TextMin <= |b.manager| <= TextMax
    && TextMin <= |b.address| <= TextMax
    && TextMin <= |b.contact| <= TextMax
  }

  /** The in-place `branch.status = !branch.status` of the toggle handler. */
  function Flipped(b: Branch): (r: Branch)
    ensures r.status == !b.status
    ensures r.(status := b.status) == b
    ensures Valid(r) <==> Valid(b)
  {
    b.(status := !b.status)
  }

  /** The schema fields that can carry a validation error. */
  datatype Field = Name | Manager | Address | Contact

  const AllFields: set<Field> := {Name, Manager, Address, Contact}

  /** A partial record: form input, an event payload, or a stored record spread out. */
  datatype Draft = Draft(
    id: Option<string>,
    name: Option<string>,
    manager: Option<string>,
    address: Option<string>,
    contact: Option<string>,
    status: Option<bool>)

  /** The empty object `{}`. */
  const EmptyDraft: Draft := Draft(None, None, None, None, None, None)

  /** A stored record spread into an object: every property present. */
  function FromBranch(b: Branch): Draft {
    Draft(Some(b.id), Some(b.name), Some(b.manager), Some(b.address), Some(b.contact), Some(b.status))
  }

  function Pick<T>(base: Option<T>, top: Option<T>): Option<T> {
    if top.Some? then top else base
  }

  /** Object spread `{...base, ...top}`: a property of `top` wins when present. */
  function Overlay(base: Draft, top: Draft): Draft {
    Draft(
      Pick(base.id, top.id),
      Pick(base.name, top.name),
      Pick(base.manager, top.manager),
      Pick(base.address, top.address),
      Pick(base.contact, top.contact),
      Pick(base.status, top.status))
  }

  function Slot(d: Draft, f: Field): Option<string> {
    match f
    case Name => d.name
    case Manager => d.manager
    case Address => d.address
    case Contact => d.contact
  }

  function MinLength(f: Field): nat {
    if f == Name then NameMin else TextMin
  }

  /** Field `f` of `d` is present and within its bounds. */
  predicate SlotOk(d: Draft, f: Field) {
    Slot(d, f).Some? && MinLength(f) <= |Slot(d, f).value| <= TextMax
  }

  /** The fields the schema reports an error on. */
  function Errors(d: Draft): (es: set<Field>)
    ensures es <= AllFields
    ensures forall f :: f in es <==> !SlotOk(d, f)
  {
    (if SlotOk(d, Name) then {} else {Name})
    + (if SlotOk(d, Manager) then {} else {Manager})
    + (if SlotOk(d, Address) then {} else {Address})
    + (if SlotOk(d, Contact) then {} else {Contact})
  }

  /**
   * `BranchSchema.safeParse(d)`: a record exactly when no field has an error; the
   * missing `id` is the generated one and a missing `status` is false.
   */
  function Parse(d: Draft, genId: string): (r: Option<Branch>)
    ensures r.Some? <==> Errors(d) == {}
    ensures r.Some? ==> Valid(r.value)
    ensures r.Some? ==>
      FromBranch(r.value)
      == Draft(Some(d.id.GetOr(genId)), d.name, d.manager, d.address, d.contact, Some(d.status.GetOr(false)))
  {
    if SlotOk(d, Name) && SlotOk(d, Manager) && SlotOk(d, Address) && SlotOk(d, Contact) then
      Some(Branch(d.id.GetOr(genId), d.name.value, d.manager.value, d.address.value, d.contact.value,
                  d.status.GetOr(false)))
    else
      assert Errors(d) != {} by {
        if !SlotOk(d, Name) { assert Name in Errors(d); }
        else if !SlotOk(d, Manager) { assert Manager in Errors(d); }
        else if !SlotOk(d, Address) { assert Address in Errors(d); }
        else { assert Contact in Errors(d); }
      }
      None
  }

  /** The `action` argument of the factory: absent, "validate" or "save". */
  datatype Action = NoAction | ValidateAction | SaveAction

  /** A changeset: the merged candidate, the failing fields and, when valid, the parsed record. */
  datatype Changeset = Changeset(action: Action, data: Draft, errors: set<Field>, parsed: Option<Branch>) {
    predicate IsValid() {
      parsed.Some?
    }
  }

  /** `branchesDB[key]` as the factory's `existing` argument: a missing record spreads as `{}`. */
  function AsDraft(existing: Option<Branch>): Draft {
    if existing.Some? then FromBranch(existing.value) else EmptyDraft
  }

  /** `branchCSF(existing, input, action)`. */
  function NewChangeset(existing: Option<Branch>, input: Draft, action: Action, genId: string): (cs: Changeset)
    ensures cs.action == action
    ensures cs.data == Overlay(AsDraft(existing), input)
    ensures cs.IsValid() <==> cs.errors == {}
    ensures forall f :: f in cs.errors <==> !SlotOk(cs.data, f)
    ensures cs.IsValid() ==> Valid(cs.parsed.value)
    ensures cs.parsed == Parse(cs.data, genId)
  {
    var d := Overlay(AsDraft(existing), input);
    Changeset(action, d, Errors(d), Parse(d, genId))
  }

  /**
   * `branchCSF({}, {})`, the empty changeset. The id nanoid would generate is discarded
   * because parsing fails, so any value stands in for it.
   */
  function EmptyChangeset(): (cs: Changeset)
    ensures cs.action == NoAction && cs.data == EmptyDraft
    ensures !cs.IsValid() && cs.errors == AllFields
  {
    NewChangeset(None, EmptyDraft, NoAction, "")
  }

  /** A candidate parses iff `name` has length in [2,100] and the other text fields in [4,100]. */
  lemma ParseIffBounds(d: Draft, genId: string)
    ensures Parse(d, genId).Some? <==>
      && d.name.Some? && 2 <= |d.name.value| <= 100
      && d.manager.Some? && 4 <= |d.manager.value| <= 100
      && d.address.Some? && 4 <= |d.address.value| <= 100
      && d.contact.Some? && 4 <= |d.contact.value| <= 100
  {
  }

  /** Absent `status` parses as false and absent `id` as the generated one. */
  lemma ParseDefaults(d: Draft, genId: string)
    requires Parse(d, genId).Some?
    ensures d.status.None? ==> !Parse(d, genId).value.status
    ensures d.id.None? ==> Parse(d, genId).value.id == genId
    ensures d.id.Some? ==> Parse(d, genId).value.id == d.id.value
  {
  }

  /** Spreading a stored record and parsing it gives the record back exactly when it is valid. */
  lemma ParseFromBranch(b: Branch, genId: string)
    ensures Parse(FromBranch(b), genId) == (if Valid(b) then Some(b) else None)
  {
  }

  /** `{}` is a unit of object spread on both sides, and a full record overrides anything. */
  lemma OverlayLaws(d: Draft, b: Branch)
    ensures Overlay(EmptyDraft, d) == d
    ensures Overlay(d, EmptyDraft) == d
    ensures Overlay(d, FromBranch(b)) == FromBranch(b)
  {
  }
}

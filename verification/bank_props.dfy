/** Properties of the branch live view that relate several calls. */
module BankProps {
  import opened Wrappers
  import opened Schema
  import opened Store
  import opened BankView

  /**
   * What holds of the shared state and a lone connection between events: the store is
   * keyed by id and holds only valid records, the connection lists exactly the stored
   * records, and its edit target, when set, is the module-level one.
   */
  predicate Coherent(sh: Shared, c: Context) {
    && KeyedById(sh.db)
    && AllValid(sh.db)
    && c.branches == sh.db.Values
    && (c.editBranchId.Some? ==> c.editBranchId.value == sh.editBranchId)
  }

  /** A fresh process with one mounted connection is coherent. */
  lemma InitialCoherent()
    ensures Coherent(InitialShared, Mount(InitialShared))
  {
  }

  /** Mounting on any coherent store gives a coherent connection. */
  lemma MountCoherent(sh: Shared, c: Context)
    requires Coherent(sh, c)
    ensures Coherent(sh, Mount(sh))
  {
  }

  /** Every event keeps a coherent connection coherent. */
  lemma StepCoherent(sh: Shared, c: Context, e: Event, genId: string)
    requires Coherent(sh, c)
    ensures var o := HandleEvent(sh, c, e, genId); Coherent(o.shared, o.ctx)
  {
  }

  /** Any sequence of events keeps a coherent connection coherent. */
  lemma {:induction false} RunCoherent(sh: Shared, c: Context, trace: seq<(Event, string)>)
    requires Coherent(sh, c)
    ensures var r := Run(sh, c, trace); Coherent(r.shared, r.ctx)
    decreases |trace|
  {
    if |trace| > 0 {
      var o := HandleEvent(sh, c, trace[0].0, trace[0].1);
      StepCoherent(sh, c, trace[0].0, trace[0].1);
      RunCoherent(o.shared, o.ctx, trace[1..]);
    }
  }

  /** Only "updated" on "branches" is ever published, and a run that changes the store publishes. */
  lemma {:induction false} RunLog(sh: Shared, c: Context, trace: seq<(Event, string)>)
    ensures var r := Run(sh, c, trace);
      && (forall i :: 0 <= i < |r.log| ==> r.log[i] == Updated)
      && |r.log| <= |trace|
      && (r.shared.db != sh.db ==> |r.log| > 0)
    decreases |trace|
  {
    if |trace| > 0 {
      var o := HandleEvent(sh, c, trace[0].0, trace[0].1);
      RunLog(o.shared, o.ctx, trace[1..]);
      var rest := Run(o.shared, o.ctx, trace[1..]);
      assert Run(sh, c, trace).log == SentLog(o.sent) + rest.log;
    }
  }

  /** Any connection that handles a published message sees the list the sender now shows. */
  lemma SubscriberSync(sh: Shared, sender: Context, other: Context, e: Event, genId: string)
    ensures var o := HandleEvent(sh, sender, e, genId);
      o.sent.Some? ==>
        && HandleInfo(o.shared, other, o.sent.value.info).branches == o.ctx.branches
        && HandleInfo(o.shared, other, o.sent.value.info).branches == o.shared.db.Values
  {
  }

  /** Toggling the same id twice restores the store and the module-level state. */
  lemma ToggleTwice(sh: Shared, c: Context, id: string)
    requires KeyedById(sh.db)
    ensures var o1 := OnToggle(sh, c, id); var o2 := OnToggle(o1.shared, o1.ctx, id);
      && o2.shared == sh
      && o2.ctx == (if id in sh.db then c.(branches := sh.db.Values) else c)
  {
  }

  /** Deleting twice leaves the store as deleting once; the second delete still publishes. */
  lemma DeleteTwice(sh: Shared, c: Context, id: string)
    ensures var o1 := OnDelete(sh, c, id); var o2 := OnDelete(o1.shared, o1.ctx, id);
      && o2.shared == o1.shared
      && o2.ctx == o1.ctx
      && o2.sent == Some(Updated)
  {
  }

  /**
   * Updating the stored edit target, with no id in the input or with the target's own id
   * (the edit form submits the row's id), rewrites that record in place: same key, input
   * fields over stored fields, status kept unless given.
   */
  lemma UpdateInPlace(sh: Shared, c: Context, input: Draft, genId: string)
    requires KeyedById(sh.db) && sh.editBranchId in sh.db
    requires input.id.None? || input.id == Some(sh.editBranchId)
    requires Parse(Overlay(FromBranch(sh.db[sh.editBranchId]), input), genId).Some?
    ensures var o := OnUpdate(sh, c, input, genId); var prev := sh.db[sh.editBranchId];
      && o.shared.db.Keys == sh.db.Keys
      && SameExcept(sh.db, o.shared.db, sh.editBranchId)
      && o.shared.db[sh.editBranchId]
         == Branch(prev.id, input.name.GetOr(prev.name), input.manager.GetOr(prev.manager),
                   input.address.GetOr(prev.address), input.contact.GetOr(prev.contact),
                   input.status.GetOr(prev.status))
  {
  }

  /**
   * With the module-level edit target missing from the store (initially "", or a deleted
   * branch), the existing record spreads as `{}`: an update whose input alone passes the
   * schema stores it under the input's id, or the generated one when it has none, with
   * status false unless given.
   */
  lemma UpdateMissingTargetInserts(sh: Shared, c: Context, input: Draft, genId: string)
    requires sh.editBranchId !in sh.db
    requires Parse(input, genId).Some?
    ensures var o := OnUpdate(sh, c, input, genId); var k := input.id.GetOr(genId);
      && o.sent == Some(Updated)
      && o.shared.db.Keys == sh.db.Keys + {k}
      && o.shared.db[k] == Parse(input, genId).value
      && o.shared.db[k].status == input.status.GetOr(false)
      && SameExcept(sh.db, o.shared.db, k)
  {
  }

  /**
   * The edit target is shared by all connections: after A edits `x` and B edits `y`, an
   * update from A with no id rewrites `y`, and `x` keeps its record.
   */
  lemma EditTargetShared(sh: Shared, a: Context, b: Context, x: string, y: string,
                         input: Draft, genId: string)
    requires KeyedById(sh.db) && x != y && x in sh.db && y in sh.db
    requires input.id.None?
    requires Parse(Overlay(FromBranch(sh.db[y]), input), genId).Some?
    ensures var a1 := OnEdit(sh, a, x);
      var b1 := OnEdit(a1.shared, b, y);
      var a2 := OnUpdate(b1.shared, a1.ctx, input, genId);
      && a1.ctx.editBranchId == Some(x)
      && a2.shared.db[x] == sh.db[x]
      && (a2.shared.db[y] != sh.db[y] <==> Overlay(FromBranch(sh.db[y]), input) != FromBranch(sh.db[y]))
  {
  }

  /**
   * The same hijack with the payload A's edit form submits, which carries A's row id `x`
   * and no status: A's fields land on `x`, but `x` takes the status of `y`, the record
   * under the shared target; `y` is untouched.
   */
  lemma EditTargetSharedFromForm(sh: Shared, a: Context, b: Context, x: string, y: string,
                                 input: Draft, genId: string)
    requires KeyedById(sh.db) && x != y && x in sh.db && y in sh.db
    requires input.id == Some(x) && input.status.None?
    requires Parse(Overlay(FromBranch(sh.db[y]), input), genId).Some?
    ensures var a1 := OnEdit(sh, a, x);
      var b1 := OnEdit(a1.shared, b, y);
      var a2 := OnUpdate(b1.shared, a1.ctx, input, genId);
      var other := sh.db[y];
      && a2.sent == Some(Updated)
      && a2.shared.db.Keys == sh.db.Keys
      && a2.shared.db[y] == other
      && a2.shared.db[x]
         == Branch(x, input.name.GetOr(other.name), input.manager.GetOr(other.manager),
                   input.address.GetOr(other.address), input.contact.GetOr(other.contact),
                   other.status)
      && SameExcept(sh.db, a2.shared.db, x)
  {
  }

  /** An invalid update leaves shared state and the connection alone: no error is shown. */
  lemma UpdateInvalidNoop(sh: Shared, c: Context, input: Draft, genId: string)
    requires Parse(Overlay(AsDraft(Lookup(sh.db, sh.editBranchId)), input), genId).None?
    ensures OnUpdate(sh, c, input, genId) == Outcome(sh, c, None)
  {
  }

  const MainStreet: Draft :=
    Draft(None, Some("Main St"), Some("Alice Smith"), Some("123 Main St"), Some("555-1234"), None)

  /** Save a branch, toggle it twice, then fail an update with a one-letter name. */
  lemma Scenario(g: string)
    ensures var c0 := Mount(InitialShared);
      var s1 := OnSave(InitialShared, c0, MainStreet, g);
      var stored := Branch(g, "Main St", "Alice Smith", "123 Main St", "555-1234", false);
      var t1 := OnToggle(s1.shared, s1.ctx, g);
      var t2 := OnToggle(t1.shared, t1.ctx, g);
      var e := OnEdit(t2.shared, t2.ctx, g);
      var u := Draft(None, Some("M"), None, None, None, None);
      && s1.shared.db == map[g := stored]
      && |s1.ctx.branches| == 1
      && t1.shared.db[g].status
      && t2.shared.db == s1.shared.db
      && OnUpdate(e.shared, e.ctx, u, g) == Outcome(e.shared, e.ctx, None)
  {
    var c0 := Mount(InitialShared);
    var s1 := OnSave(InitialShared, c0, MainStreet, g);
    ParseIffBounds(MainStreet, g);
    ParseDefaults(MainStreet, g);
    var stored := Branch(g, "Main St", "Alice Smith", "123 Main St", "555-1234", false);
    assert FromBranch(Parse(MainStreet, g).value) == FromBranch(stored);
    assert s1.shared.db.Values == {stored};
    ToggleTwice(s1.shared, s1.ctx, g);
    var t1 := OnToggle(s1.shared, s1.ctx, g);
    var t2 := OnToggle(t1.shared, t1.ctx, g);
    var e := OnEdit(t2.shared, t2.ctx, g);
    var u := Draft(None, Some("M"), None, None, None, None);
    var d := Overlay(AsDraft(Lookup(e.shared.db, e.shared.editBranchId)), u);
    assert d.name == Some("M");
    ParseIffBounds(d, g);
  }
}

/** The two pure choices `renderBranch` makes; the markup itself is not modelled. */
module Render {
  import opened Wrappers
  import opened Schema
  import opened Store

  /** A row shows the inline edit form or the Edit/Delete buttons. */
  datatype RowMode = EditForm | Buttons

  /** `editBranchId === b.id ? editForm(...) : editButton(...)`; a null target matches no row. */
  function ModeOf(b: Branch, editBranchId: Option<string>): (m: RowMode)
    ensures m == EditForm <==> editBranchId == Some(b.id)
  {
    if editBranchId.Some? && editBranchId.value == b.id then EditForm else Buttons
  }

  /** The toggle button's label: "Disabled" for status true, "Activated" for false. */
  function StatusLabel(b: Branch): (s: string)
    ensures s == "Disabled" <==> b.status
    ensures s == "Activated" <==> !b.status
  {
    if b.status then "Disabled" else "Activated"
  }

  /** Toggling a branch always changes the label its button shows. */
  lemma ToggleChangesLabel(b: Branch)
    ensures StatusLabel(Flipped(b)) != StatusLabel(b)
  {
  }

  /**
   * With records keyed by id, at most one listed branch renders the edit form, and when the
   * target is stored, its record is that one.
   */
  lemma AtMostOneEditForm(db: Db, t: Option<string>)
    requires KeyedById(db)
    ensures forall b1, b2 ::
      (b1 in db.Values && b2 in db.Values && ModeOf(b1, t) == EditForm && ModeOf(b2, t) == EditForm)
      ==> b1 == b2
    ensures t.Some? && t.value in db ==> ModeOf(db[t.value], t) == EditForm
  {
  }
}

/**
 * The index-based project editor (components/AdminPanel.tsx). The panel
 * holds the entry being edited (with its row index) and the form fields;
 * it reports every new list through `onProjectsChange`. The model assumes
 * the parent stores what it is given and passes it back as `projects`.
 */
module AdminPanel {
  import opened Wrappers

  /** The panel's own project shape: name, image URL and link. The form has the same shape. */
  datatype Item = Item(name: string, image: string, link: string)

  /** The `name` attribute of the input that fired a change event. */
  datatype Field = Name | Image | Link

  /** `editingProject`: the row chosen for editing, as it was, and its index. */
  datatype Editing = Editing(item: Item, index: nat)

  const BlankForm := Item("", "", "")

  function FieldOf(f: Item, field: Field): string {
    match field
    case Name => f.name
    case Image => f.image
    case Link => f.link
  }

  /** `{ ...prev, [name]: value }` */
  function WithField(f: Item, field: Field, value: string): (r: Item)
    ensures FieldOf(r, field) == value
    ensures forall g :: g != field ==> FieldOf(r, g) == FieldOf(f, g)
  {
    match field
    case Name => f.(name := value)
    case Image => f.(image := value)
    case Link => f.(link := value)
  }

  /** The form the sync effect derives from `editingProject`. */
  function FormFor(editing: Option<Editing>): Item {
    if editing.Some? then editing.value.item else BlankForm
  }

  /** `projects.filter((_, i) => i !== index)`, with `offset` the position of `ps[0]`. */
  function FilterIndex(ps: seq<Item>, index: nat, offset: nat): seq<Item>
  {
    if ps == [] then []
    else (if offset == index then [] else [ps[0]]) + FilterIndex(ps[1..], index, offset + 1)
  }

  function RemoveIndex(ps: seq<Item>, index: nat): seq<Item> {
    FilterIndex(ps, index, 0)
  }

  lemma {:induction false} FilterIndexBelow(ps: seq<Item>, index: nat, offset: nat)
    requires index < offset
    ensures FilterIndex(ps, index, offset) == ps
  {
    if ps != [] {
      FilterIndexBelow(ps[1..], index, offset + 1);
    }
  }

  lemma {:induction false} FilterIndexSplit(ps: seq<Item>, index: nat, offset: nat)
    requires offset <= index
    ensures index - offset < |ps| ==> FilterIndex(ps, index, offset) == ps[..index - offset] + ps[index - offset + 1..]
    ensures index - offset >= |ps| ==> FilterIndex(ps, index, offset) == ps
    decreases |ps|
  {
    if ps != [] {
      if offset == index {
        FilterIndexBelow(ps[1..], index, offset + 1);
      } else {
        FilterIndexSplit(ps[1..], index, offset + 1);
        if index - offset < |ps| {
          assert ps[..index - offset] == [ps[0]] + ps[1..][..index - offset - 1];
          assert ps[index - offset + 1..] == ps[1..][index - offset..];
        }
      }
    }
  }

  /**
   * A confirmed delete removes exactly the row at `index`, keeping the others
   * in order; an index past the end removes nothing.
   */
  lemma RemoveIndexSpec(ps: seq<Item>, index: nat)
    ensures index < |ps| ==> RemoveIndex(ps, index) == ps[..index] + ps[index + 1..]
    ensures index < |ps| ==> |RemoveIndex(ps, index)| == |ps| - 1
    ensures index >= |ps| ==> RemoveIndex(ps, index) == ps
  {
    FilterIndexSplit(ps, index, 0);
  }

  /** The edited row is still at its index, so a submit overwrites the row the admin chose. */
  predicate EditTargetHolds(ps: seq<Item>, editing: Option<Editing>) {
    editing.Some? ==> editing.value.index < |ps| && ps[editing.value.index] == editing.value.item
  }

  /** `handleDelete` as written: it leaves `editingProject` as it was. */
  function EditingAfterDeleteAsWritten(editing: Option<Editing>, index: nat): (r: Option<Editing>)
    ensures r == editing
  {
    editing
  }

  /**
   * A delete that keeps the edit state aligned with the list: deleting the
   * edited row ends the edit, deleting a row above it moves its index up.
   */
  function EditingAfterDelete(editing: Option<Editing>, index: nat): (r: Option<Editing>)
    ensures editing.None? ==> r.None?
    ensures editing.Some? && index == editing.value.index ==> r.None?
    ensures editing.Some? && index != editing.value.index ==> r.Some?
    ensures r.Some? ==> editing.Some? && r.value.item == editing.value.item
    ensures r.Some? && index < editing.value.index ==> r.value.index == editing.value.index - 1
    ensures r.Some? && index > editing.value.index ==> r.value.index == editing.value.index
  {
    match editing
    case None => None
    case Some(e) =>
      if index == e.index then None
      else if index < e.index then Some(Editing(e.item, e.index - 1))
      else Some(e)
  }

  /**
   * The aligned edit state survives every delete: deleting another row keeps
   * the same entry in edit, and it is still at its index.
   */
  lemma EditingAfterDeleteKeepsTarget(ps: seq<Item>, editing: Option<Editing>, index: nat)
    requires EditTargetHolds(ps, editing)
    ensures EditTargetHolds(RemoveIndex(ps, index), EditingAfterDelete(editing, index))
    ensures editing.Some? && index != editing.value.index ==>
      && EditingAfterDelete(editing, index).Some?
      && EditingAfterDelete(editing, index).value.item == editing.value.item
  {
    RemoveIndexSpec(ps, index);
  }

  /**
   * The list `handleSubmit` reports: the form written at the edit index of a
   * copy of the list, or appended when nothing is in edit. Written at an index
   * equal to the length, JavaScript appends it.
   */
  function SubmittedList(ps: seq<Item>, editing: Option<Editing>, form: Item): (r: seq<Item>)
    requires editing.Some? ==> editing.value.index <= |ps|
    ensures editing.None? ==> |r| == |ps| + 1 && r[..|ps|] == ps && r[|ps|] == form
    ensures editing.Some? && editing.value.index < |ps| ==>
      && |r| == |ps| && r[editing.value.index] == form
      && forall j :: 0 <= j < |ps| && j != editing.value.index ==> r[j] == ps[j]
    ensures editing.Some? && editing.value.index == |ps| ==> r == ps + [form]
  {
    if editing.None? then ps + [form]
    else if editing.value.index < |ps| then ps[editing.value.index := form]
    else ps + [form]
  }

  /**
   * With `handleDelete` as written, the index goes stale: editing the middle
   * of three rows and then deleting the first, a submit of the unchanged form
   * overwrites the last row and duplicates the edited one.
   */
  lemma StaleEditIndexOverwritesWrongRow()
    ensures var a, b, c := Item("a", "a", "a"), Item("b", "b", "b"), Item("c", "c", "c");
      var editing := EditingAfterDeleteAsWritten(Some(Editing(b, 1)), 0);
      var ps := RemoveIndex([a, b, c], 0);
      && EditTargetHolds([a, b, c], Some(Editing(b, 1)))
      && ps == [b, c]
      && !EditTargetHolds(ps, editing)
      && SubmittedList(ps, editing, FormFor(editing)) == [b, b]
  {
    var a, b, c := Item("a", "a", "a"), Item("b", "b", "b"), Item("c", "c", "c");
    RemoveIndexSpec([a, b, c], 0);
    assert RemoveIndex([a, b, c], 0) == [b, c];
  }

  /**
   * With `handleDelete` as written, deleting the row that is in edit leaves
   * its index one past the end of the shorter list: a submit of the unchanged
   * form brings the deleted row back.
   */
  lemma StaleEditIndexRestoresDeletedRow()
    ensures var a, b, c := Item("a", "a", "a"), Item("b", "b", "b"), Item("c", "c", "c");
      var editing := EditingAfterDeleteAsWritten(Some(Editing(c, 2)), 2);
      var ps := RemoveIndex([a, b, c], 2);
      && EditTargetHolds([a, b, c], Some(Editing(c, 2)))
      && ps == [a, b]
      && !EditTargetHolds(ps, editing)
      && SubmittedList(ps, editing, FormFor(editing)) == [a, b, c]
  {
    var a, b, c := Item("a", "a", "a"), Item("b", "b", "b"), Item("c", "c", "c");
    RemoveIndexSpec([a, b, c], 2);
    assert RemoveIndex([a, b, c], 2) == [a, b];
  }

  /** With the aligned delete, the same sequence overwrites the edited row. */
  lemma AlignedEditIndexOverwritesEditedRow()
    ensures var a, b, c := Item("a", "a", "a"), Item("b", "b", "b"), Item("c", "c", "c");
      var editing := EditingAfterDelete(Some(Editing(b, 1)), 0);
      var ps := RemoveIndex([a, b, c], 0);
      && ps == [b, c]
      && EditTargetHolds(ps, editing)
      && SubmittedList(ps, editing, FormFor(editing)) == [b, c]
  {
    var a, b, c := Item("a", "a", "a"), Item("b", "b", "b"), Item("c", "c", "c");
    RemoveIndexSpec([a, b, c], 0);
    assert RemoveIndex([a, b, c], 0) == [b, c];
  }

  /**
   * With the aligned delete, deleting the row in edit ends the edit: the
   * deleted row does not come back, and a submit adds a new row instead.
   */
  lemma AlignedDeleteOfEditedRowEndsEdit()
    ensures var a, b, c := Item("a", "a", "a"), Item("b", "b", "b"), Item("c", "c", "c");
      var editing := EditingAfterDelete(Some(Editing(c, 2)), 2);
      var ps := RemoveIndex([a, b, c], 2);
      && ps == [a, b]
      && editing.None?
      && SubmittedList(ps, editing, FormFor(editing)) == [a, b, BlankForm]
  {
    var a, b, c := Item("a", "a", "a"), Item("b", "b", "b"), Item("c", "c", "c");
    RemoveIndexSpec([a, b, c], 2);
    assert RemoveIndex([a, b, c], 2) == [a, b];
  }

  class Panel {
    /** The `projects` prop. */
    var projects: seq<Item>
    /** `editingProject` */
    var editing: Option<Editing>
    /** `formData` */
    var form: Item

    ghost predicate Valid()
      reads this
    {
      EditTargetHolds(projects, editing)
    }

    constructor (projects: seq<Item>)
      ensures Valid()
      ensures this.projects == projects && editing.None? && form == BlankForm
    {
      this.projects := projects;
      editing := None;
      form := BlankForm;
    }

    /** The effect on `[editingProject]`: mirror the edited entry, or blank the form. */
    method SyncForm()
      modifies this`form
      ensures editing.Some? ==> form == editing.value.item
      ensures editing.None? ==> form == BlankForm
    {
      if editing.Some? {
        form := Item(editing.value.item.name, editing.value.item.image, editing.value.item.link);
      } else {
        form := BlankForm;
      }
    }

    /** `handleInputChange` */
    method HandleInputChange(field: Field, value: string)
      modifies this`form
      ensures form == WithField(old(form), field, value)
      ensures FieldOf(form, field) == value
      ensures forall g :: g != field ==> FieldOf(form, g) == FieldOf(old(form), g)
    {
      form := WithField(form, field, value);
    }

    /** `handleEdit`, followed by the sync effect it triggers. */
    method HandleEdit(index: nat)
      requires Valid() && index < |projects|
      modifies this`editing, this`form
      ensures Valid()
      ensures editing == Some(Editing(projects[index], index))
      ensures form == projects[index]
    {
      editing := Some(Editing(projects[index], index));
      SyncForm();
    }

    /** `handleSubmit`: report the new list, then leave edit mode with a blank form. */
    method HandleSubmit() returns (emitted: seq<Item>)
      requires Valid()
      modifies this
      ensures Valid()
      ensures emitted == SubmittedList(old(projects), old(editing), old(form))
      ensures old(editing).Some? ==>
        && |emitted| == |old(projects)|
        && emitted[old(editing).value.index] == old(form)
        && forall j :: 0 <= j < |emitted| && j != old(editing).value.index ==> emitted[j] == old(projects)[j]
      ensures old(editing).None? ==> emitted == old(projects) + [old(form)]
      ensures projects == emitted
      ensures editing.None? && form == BlankForm
    {
      if editing.Some? {
        var updated := projects;
        updated := updated[editing.value.index := Item(form.name, form.image, form.link)];
        emitted := updated;
      } else {
        emitted := projects + [form];
      }
      projects := emitted;
      editing := None;
      form := BlankForm;
    }

    /**
     * `handleDelete`, with the edit state kept aligned with the list (see
     * EditingAfterDelete). An unconfirmed delete changes nothing.
     */
    method HandleDelete(index: nat, confirmed: bool) returns (emitted: Option<seq<Item>>)
      requires Valid()
      modifies this
      ensures Valid()
      ensures !confirmed ==>
        && emitted.None? && projects == old(projects)
        && editing == old(editing) && form == old(form)
      ensures confirmed ==>
        && emitted == Some(projects) && projects == RemoveIndex(old(projects), index)
        && editing == EditingAfterDelete(old(editing), index)
      ensures confirmed && index < |old(projects)| ==>
        projects == old(projects)[..index] + old(projects)[index + 1..]
      ensures form == if old(editing).Some? && editing.None? then BlankForm else old(form)
    {
      if !confirmed {
        return None;
      }
      EditingAfterDeleteKeepsTarget(projects, editing, index);
      RemoveIndexSpec(projects, index);
      var wasEditing := editing.Some?;
      projects := RemoveIndex(projects, index);
      editing := EditingAfterDelete(editing, index);
      if wasEditing && editing.None? {
        SyncForm();
      }
      emitted := Some(projects);
    }

    /** `handleCancelEdit` */
    method HandleCancelEdit()
      modifies this`editing, this`form
      ensures editing.None? && form == BlankForm
      ensures Valid()
    {
      editing := None;
      form := BlankForm;
    }
  }
}

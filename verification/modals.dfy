/**
  The view/edit/add modal shared in shape by the equipment and the user
  screens: whether it is open, the record it shows, its type, and the
  record its form hands to the save handler.
 */
module Modals {
  import opened Records

  /** The modal's type: the empty string while closed, otherwise 'view',
      'edit' or 'add'. */
  datatype Kind = NoKind | ViewKind | EditKind | AddKind

  datatype ModalState<F> = ModalState(isOpen: bool, current: Option<Record<F>>, kind: Kind)

  /** The state `closeEquipmentModal` / `closeUserModal` leave behind,
      whatever the modal showed before; also the initial state. */
  function Closed<F>(): ModalState<F> {
    ModalState(false, None, NoKind)
  }

  /** The state `openEquipmentModal(item, type)` / `openUserModal(user, type)`
      leave behind, whatever the modal showed before. */
  function Open<F>(item: Record<F>, kind: Kind): ModalState<F> {
    ModalState(true, Some(item), kind)
  }

  /** The "Edit" button of a view modal: close, then reopen the same record
      for editing. The button only exists on an open view modal. */
  function ReopenForEdit<F>(m: ModalState<F>): (r: ModalState<F>)
    ensures m.isOpen && m.kind == ViewKind ==> r.isOpen && r.kind == EditKind && r.current == m.current
    ensures !(m.isOpen && m.kind == ViewKind) ==> r == m
  {
    if m.isOpen && m.kind == ViewKind then ModalState(true, m.current, EditKind) else m
  }

  /** The record a form submit hands to the save handler,
      `{ ...item, ...form }`: the form's fields over the shown record, whose
      id survives. Only an open edit or add modal has a submit button. */
  function Submitted<F>(m: ModalState<F>, form: F): (r: Option<Record<F>>)
    ensures r.Some? <==> m.isOpen && (m.kind == EditKind || m.kind == AddKind)
    ensures r.Some? ==> r.value.fields == form
    ensures r.Some? && m.current.Some? ==> r.value.id == m.current.value.id
    ensures r.Some? && m.current.None? ==> r.value.id == None
  {
    if m.isOpen && (m.kind == EditKind || m.kind == AddKind) then
      Some(Record(if m.current.Some? then m.current.value.id else None, form))
    else
      None
  }

  /** The record the "add equipment" button opens the modal on. */
  const EquipmentAddTemplate: Equipment := Record(None, EquipmentFields("", "", "", ""))

  /** The record the "add user" button opens the modal on. */
  const UserAddTemplate: User := Record(None, UserFields("", "", "Usuario"))

  /** A modal opened on an id-less template submits an id-less record, so
      the save that follows takes the insert path. */
  lemma AddSubmitHasNoId<F>(template: Record<F>, form: F)
    requires template.id == None
    ensures Submitted(Open(template, AddKind), form) == Some(Record(None, form))
    ensures !Truthy(Submitted(Open(template, AddKind), form).value.id)
  {
  }

  /** A modal opened for editing a stored record submits the edited fields
      under the record's own id, so the save that follows takes the update
      path when that id is truthy. */
  lemma EditSubmitKeepsId<F>(item: Record<F>, form: F)
    ensures Submitted(Open(item, EditKind), form) == Some(Record(item.id, form))
  {
  }
}

/** The task detail dialog: its border colour, the family colour dot, the status buttons it
    offers, the status-change payload and the edit form's field updaters. */
module TaskDialog {
  import opened Optional
  import opened Seqs
  import opened Tasks
  import Board

  /** `statusColors`: the dialog's border class per status. */
  function StatusColor(s: Status): (c: string) {
    match s
    case TODO => "border-red-500"
    case DOING => "border-purple-500"
    case DONE => "border-green-500"
    case PAUSED => "border-blue-500"
  }

  /** The colour shown when a task has no family or its family is unknown. */
  const DefaultFamilyColor: string := "#FFFFFF"

  /** `getFamilyColor`: no lookup for a null or empty id; otherwise the colour of the first
      family with that id, or white when none has it. */
  function FamilyColor(families: seq<Family>, familyId: Option<string>): (c: string)
    ensures familyId.None? || familyId.value == "" ==> c == DefaultFamilyColor
    ensures familyId.Some? && familyId.value != "" ==>
              || (exists i :: 0 <= i < |families| && families[i].id == familyId.value && c == families[i].color
                              && forall j :: 0 <= j < i ==> families[j].id != familyId.value)
              || ((forall i :: 0 <= i < |families| ==> families[i].id != familyId.value) && c == DefaultFamilyColor)
  {
    match familyId
    case None => DefaultFamilyColor
    case Some(id) =>
      if id == "" then DefaultFamilyColor
      else
        match FindFirst(families, (f: Family) => f.id == id)
        case None => DefaultFamilyColor
        case Some(i) => families[i].color
  }

  /** The buttons offered for a task: every status except its current one, in the layout
      order TODO, DONE, DOING, PAUSED. */
  function StatusButtons(current: Status): (r: seq<Status>)
    ensures |r| == 3
    ensures current !in r
    ensures forall i, j :: 0 <= i < j < |r| ==> r[i] != r[j]
  {
    match current
    case TODO => [DONE, DOING, PAUSED]
    case DONE => [TODO, DOING, PAUSED]
    case DOING => [TODO, DONE, PAUSED]
    case PAUSED => [TODO, DONE, DOING]
  }

  /** The body the dialog PUTs when a status button is pressed: the task with only its
      status replaced. */
  function StatusChangePayload(task: Task, newStatus: Status): (r: Task)
    ensures r.status == newStatus
    ensures forall f :: f != StatusField ==> Agree(r, task, f)
  {
    task.(status := newStatus)
  }

  /** The editable fields of a task (the id is carried along, never edited). */
  datatype Field = IdField | TitleField | DescriptionField | FechaField | HoraField
                 | LocationField | StatusField | FamilyField | PointsField

  /** Two tasks agree on one field. */
  predicate Agree(a: Task, b: Task, f: Field) {
    match f
    case IdField => a.id == b.id
    case TitleField => a.title == b.title
    case DescriptionField => a.description == b.description
    case FechaField => a.fecha == b.fecha
    case HoraField => a.hora == b.hora
    case LocationField => a.location == b.location
    case StatusField => a.status == b.status
    case FamilyField => a.family == b.family
    case PointsField => a.puntosDeExperiencia == b.puntosDeExperiencia
  }

  /** One change in the edit form: the new value of one field. The family select yields a
      family id; the points input is taken as already parsed. */
  datatype Edit =
    | SetTitle(title: string)
    | SetDescription(description: string)
    | SetFecha(fecha: string)
    | SetHora(hora: string)
    | SetLocation(location: string)
    | SetStatus(status: Status)
    | SetFamily(familyId: string)
    | SetPoints(points: int)

  /** The field an edit writes. */
  function FieldOf(e: Edit): Field {
    match e
    case SetTitle(_) => TitleField
    case SetDescription(_) => DescriptionField
    case SetFecha(_) => FechaField
    case SetHora(_) => HoraField
    case SetLocation(_) => LocationField
    case SetStatus(_) => StatusField
    case SetFamily(_) => FamilyField
    case SetPoints(_) => PointsField
  }

  /** The task carries the value the edit wrote. */
  predicate Holds(t: Task, e: Edit) {
    match e
    case SetTitle(v) => t.title == v
    case SetDescription(v) => t.description == v
    case SetFecha(v) => t.fecha == v
    case SetHora(v) => t.hora == v
    case SetLocation(v) => t.location == v
    case SetStatus(v) => t.status == v
    case SetFamily(v) => t.family == Some(v)
    case SetPoints(v) => t.puntosDeExperiencia == v
  }

  /** The edit form's `onChange` updaters: `prev ? { ...prev, field: value } : null`. */
  function ApplyEdit(prev: Option<Task>, e: Edit): (r: Option<Task>)
    ensures r.None? <==> prev.None?
    ensures r.Some? ==> Holds(r.value, e)
    ensures r.Some? ==> forall f :: f != FieldOf(e) ==> Agree(r.value, prev.value, f)
  {
    match prev
    case None => None
    case Some(t) =>
      Some(match e
        case SetTitle(v) => t.(title := v)
        case SetDescription(v) => t.(description := v)
        case SetFecha(v) => t.(fecha := v)
        case SetHora(v) => t.(hora := v)
        case SetLocation(v) => t.(location := v)
        case SetStatus(v) => t.(status := v)
        case SetFamily(v) => t.(family := Some(v))
        case SetPoints(v) => t.(puntosDeExperiencia := v))
  }

  /** The dialog's own state: the task shown, the copy being edited, whether the edit form
      is open, the fetched families and whether they are still loading. */
  datatype Dialog = Dialog(task: Option<Task>, editedTask: Option<Task>, editOpen: bool,
                           families: seq<Family>, loading: bool)

  /** What the dialog renders for its task. */
  datatype View = View(border: string, familyColor: string, buttons: seq<Status>)

  /** The render: nothing while there is no task or the families are loading; otherwise the
      status border, the family dot and the status buttons. */
  function Render(d: Dialog): (r: Option<View>)
    ensures r.None? <==> d.task.None? || d.loading
    ensures r.Some? ==> r.value.border == Board.StatusConfig(d.task.value.status).borderColor
    ensures r.Some? ==> forall s: Status :: s in r.value.buttons <==> s != d.task.value.status
    ensures r.Some? ==> r.value.familyColor == FamilyColor(d.families, d.task.value.family)
    ensures r.Some? && d.task.value.family.None? ==> r.value.familyColor == DefaultFamilyColor
  {
    if d.task.None? || d.loading then None
    else
      var t := d.task.value;
      StatusColorMatchesBoard(t.status);
      StatusButtonsAreOthers(t.status);
      Some(View(StatusColor(t.status), FamilyColor(d.families, t.family), StatusButtons(t.status)))
  }

  /** `handleEditClick`: the edited copy is reset to the shown task and the form opens. */
  function EditClick(d: Dialog): (r: Dialog)
    ensures r.editOpen && r.editedTask == d.task
    ensures r.task == d.task && r.families == d.families && r.loading == d.loading
  {
    d.(editedTask := d.task, editOpen := true)
  }

  /** `handleTrashClick`: the id handed to the delete callback, only when the task has a
      non-empty id. */
  function TrashClick(d: Dialog): (r: Option<string>)
    ensures r.Some? <==> d.task.Some? && d.task.value.id != ""
    ensures r.Some? ==> r.value == d.task.value.id
  {
    if d.task.Some? && d.task.value.id != "" then Some(d.task.value.id) else None
  }

  // ---------------------------------------------------------------------------
  // Lemmas
  // ---------------------------------------------------------------------------

  /** The dialog border agrees with the board's column border for every status. */
  lemma StatusColorMatchesBoard(s: Status)
    ensures StatusColor(s) == Board.StatusConfig(s).borderColor
  {
  }

  /** The four border classes are pairwise distinct. */
  lemma StatusColorsDistinct(a: Status, b: Status)
    requires a != b
    ensures StatusColor(a) != StatusColor(b)
  {
    Board.StatusConfigDistinct(a, b);
  }

  /** The buttons are exactly the statuses other than the current one. */
  lemma StatusButtonsAreOthers(current: Status)
    ensures forall s: Status :: s in StatusButtons(current) <==> s != current
  {
    var r := StatusButtons(current);
    forall s: Status | s != current
      ensures s in r
    {
      match current
      case TODO => assert s == r[0] || s == r[1] || s == r[2];
      case DONE => assert s == r[0] || s == r[1] || s == r[2];
      case DOING => assert s == r[0] || s == r[1] || s == r[2];
      case PAUSED => assert s == r[0] || s == r[1] || s == r[2];
    }
  }

  /** Two edits of different fields commute. */
  lemma EditsCommute(prev: Option<Task>, e1: Edit, e2: Edit)
    requires FieldOf(e1) != FieldOf(e2)
    ensures ApplyEdit(ApplyEdit(prev, e1), e2) == ApplyEdit(ApplyEdit(prev, e2), e1)
  {
  }

  /** A second edit of the same field overrides the first. */
  lemma LastEditWins(prev: Option<Task>, e1: Edit, e2: Edit)
    requires FieldOf(e1) == FieldOf(e2)
    ensures ApplyEdit(ApplyEdit(prev, e1), e2) == ApplyEdit(prev, e2)
  {
  }

  /** Editing a field back to the value it had restores the task. */
  lemma EditToSameValue(t: Task, e: Edit)
    requires Holds(t, e)
    ensures ApplyEdit(Some(t), e) == Some(t)
  {
  }

  /** Opening the edit form discards edits left over from before: whatever the edited copy
      was, it is the shown task again. */
  lemma EditClickDiscardsEdits(d: Dialog, e: Edit)
    ensures EditClick(d.(editedTask := ApplyEdit(d.editedTask, e))) == EditClick(d)
  {
  }
}

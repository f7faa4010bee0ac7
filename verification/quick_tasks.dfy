/** The checkbox list shared by the quick-tasks and goals widgets: quick tasks of one kind,
    a set of selected ids, and the delete-selected loop. */
module Selection {
  import opened Optional
  import opened Seqs

  /** A quick task; `kind` is its type, "DAY" or "MONTH". */
  datatype QuickTask = QuickTask(id: int, title: string, completed: bool, kind: string)

  /** The widget's state. */
  datatype Widget = Widget(tasks: seq<QuickTask>, selected: set<int>, error: Option<string>)

  const FetchError: string := "Failed to fetch Quick Tasks. Please try again."
  const DeleteError: string := "Failed to delete selected tasks. Please try again."

  /** The filter predicate "is of kind `kind`". */
  function OfKind(kind: string): QuickTask -> bool {
    (t: QuickTask) => t.kind == kind
  }

  /** The fetch handler: the server's list cut down to one kind, each task as often as the
      server sent it, or the fetch error when the request failed; `OnFetchedSplits` states
      that server order is kept. */
  function OnFetched(w: Widget, kind: string, response: Option<seq<QuickTask>>): (r: Widget)
    ensures response.None? ==> r == w.(error := Some(FetchError))
    ensures response.Some? ==> r.selected == w.selected && r.error == w.error
    ensures response.Some? ==> forall i :: 0 <= i < |r.tasks| ==> r.tasks[i].kind == kind && r.tasks[i] in response.value
    ensures response.Some? ==> forall i :: 0 <= i < |response.value| && response.value[i].kind == kind ==>
                                 response.value[i] in r.tasks
    ensures response.Some? ==> forall t :: multiset(r.tasks)[t] == if t.kind == kind then multiset(response.value)[t] else 0
  {
    match response
    case None => w.(error := Some(FetchError))
    case Some(data) =>
      FilterMembers(data, OfKind(kind));
      FilterMultiplicity(data, OfKind(kind));
      w.(tasks := Filter(data, OfKind(kind)))
  }

  /** A response split in two is kept part by part, in order; with the multiplicities
      `OnFetched` states, this fixes the kept list. */
  lemma OnFetchedSplits(w: Widget, kind: string, a: seq<QuickTask>, b: seq<QuickTask>)
    ensures OnFetched(w, kind, Some(a + b)).tasks == OnFetched(w, kind, Some(a)).tasks + OnFetched(w, kind, Some(b)).tasks
  {
    FilterConcat(a, b, OfKind(kind));
  }

  /** `handleTaskSelection`: adds the id when it is not selected, removes it when it is. */
  function Toggle(selected: set<int>, id: int): (r: set<int>)
    ensures id in r <==> id !in selected
    ensures forall x :: x != id ==> (x in r <==> x in selected)
  {
    if id in selected then selected - {id} else selected + {id}
  }

  /** The checkbox of a task is ticked iff its id is selected. */
  function Checked(w: Widget, id: int): bool {
    id in w.selected
  }

  /** The delete button is shown iff at least one id is selected. */
  function DeleteButtonShown(w: Widget): (r: bool)
    ensures r <==> w.selected != {}
  {
    |w.selected| > 0
  }

  /** `handleDeleteSelectedTasks`: the selected ids, in the set's iteration order `order`, are
      deleted one at a time; `accepts(id)` is the server's answer for each. The first refusal
      stops the loop, keeps the selection and sets the error; when every delete succeeds, the
      selection is cleared. `deleted` lists the ids the server removed. */
  method DeleteSelected(w: Widget, order: seq<int>, accepts: int -> bool) returns (r: Widget, deleted: seq<int>)
    requires forall x :: x in order <==> x in w.selected
    ensures r.tasks == w.tasks
    ensures (forall j :: 0 <= j < |order| ==> accepts(order[j])) ==>
              r.selected == {} && r.error == w.error && deleted == order
    ensures (exists j :: 0 <= j < |order| && !accepts(order[j])) ==>
              && r.selected == w.selected && r.error == Some(DeleteError)
              && |deleted| < |order| && deleted == order[..|deleted|] && !accepts(order[|deleted|])
    ensures forall j :: 0 <= j < |deleted| ==> accepts(deleted[j])
  {
    deleted := [];
    var i := 0;
    while i < |order|
      invariant 0 <= i <= |order|
      invariant deleted == order[..i]
      invariant forall j :: 0 <= j < i ==> accepts(order[j])
    {
      if !accepts(order[i]) {
        r := w.(error := Some(DeleteError));
        return;
      }
      deleted := deleted + [order[i]];
      i := i + 1;
    }
    assert deleted == order;
    r := w.(selected := {});
  }

  // ---------------------------------------------------------------------------
  // Lemmas
  // ---------------------------------------------------------------------------

  /** Ticking the same checkbox twice restores the selection. */
  lemma ToggleTwice(selected: set<int>, id: int)
    ensures Toggle(Toggle(selected, id), id) == selected
  {
  }

  /** Toggles of different ids commute. */
  lemma TogglesCommute(selected: set<int>, a: int, b: int)
    ensures Toggle(Toggle(selected, a), b) == Toggle(Toggle(selected, b), a)
  {
  }

  /** Ticking an unselected box shows the delete button. */
  lemma ToggleOnShowsDelete(w: Widget, id: int)
    requires id !in w.selected
    ensures DeleteButtonShown(w.(selected := Toggle(w.selected, id)))
  {
    assert id in Toggle(w.selected, id);
  }
}

/** The quick-tasks widget: the daily quick tasks. It lists `OnFetched(w, Kind, response)`. */
module QuickTasksWidget {
  const Kind: string := "DAY"
}

/** The goals widget: the monthly quick tasks. It lists `OnFetched(w, Kind, response)`. Its
    comment speaks of "DAY" tasks but it keeps those of kind "MONTH". */
module GoalsWidget {
  import opened Optional
  import opened Selection
  import QuickTasksWidget

  const Kind: string := "MONTH"

  /** The two widgets never list the same quick task. */
  lemma WidgetsDisjoint(w1: Widget, w2: Widget, data: seq<QuickTask>, t: QuickTask)
    requires t in OnFetched(w1, QuickTasksWidget.Kind, Some(data)).tasks
    ensures t !in OnFetched(w2, Kind, Some(data)).tasks
  {
    var day := OnFetched(w1, QuickTasksWidget.Kind, Some(data)).tasks;
    var i :| 0 <= i < |day| && day[i] == t;
    assert t.kind == "DAY";
    assert "DAY" != "MONTH" by { assert "DAY"[0] != "MONTH"[0]; }
  }
}

/** The completion chart: one bar group per status, one bar per family, and the translation
    of a family's Tailwind colour class to the hex colour the chart library needs. */
module CompletionChart {
  import opened Optional
  import opened Seqs
  import opened Tasks

  /** The statuses along the chart's axis, in its display order. */
  const StatusOrder: seq<Status> := [TODO, DOING, PAUSED, DONE]

  /** One bar group: its status label and, per family id, the number of that family's tasks
      with that status. */
  datatype DataPoint = DataPoint(status: Status, counts: map<string, nat>)

  /** The set of family ids. */
  function FamilyIds(families: seq<Family>): (ids: set<string>)
    ensures forall i :: 0 <= i < |families| ==> families[i].id in ids
    decreases |families|
  {
    if families == [] then {}
    else
      var front := families[..|families| - 1];
      assert forall i :: 0 <= i < |front| ==> front[i] == families[i];
      FamilyIds(front) + {families[|families| - 1].id}
  }

  /** Every family id is the id of a listed family. */
  lemma {:induction false} FamilyIdsMembers(families: seq<Family>)
    ensures forall id :: id in FamilyIds(families) ==> exists i :: 0 <= i < |families| && families[i].id == id
    decreases |families|
  {
    if families != [] {
      var front := families[..|families| - 1];
      FamilyIdsMembers(front);
      assert forall i :: 0 <= i < |front| ==> front[i] == families[i];
    }
  }

  /** The `families.forEach` loop of one data point: one entry per family id, holding the
      number of tasks of that family with status `s`. */
  function FamilyCounts(tasks: seq<Task>, families: seq<Family>, s: Status): (m: map<string, nat>)
    ensures m.Keys == FamilyIds(families)
    ensures forall id :: id in m ==> m[id] == Count(tasks, InFamilyWithStatus(id, s))
    decreases |families|
  {
    if families == [] then map[]
    else
      var last := families[|families| - 1];
      FamilyCounts(tasks, families[..|families| - 1], s)[last.id := Count(tasks, InFamilyWithStatus(last.id, s))]
  }

  /** A data point is the bar group of status `s`: it is labelled `s` and has one entry per
      family id, holding the number of that family's tasks with status `s`. */
  predicate PointFor(tasks: seq<Task>, families: seq<Family>, p: DataPoint, s: Status) {
    && p.status == s
    && p.counts.Keys == FamilyIds(families)
    && forall id :: id in p.counts ==> p.counts[id] == Count(tasks, InFamilyWithStatus(id, s))
  }

  /** `processData`: the four bar groups, in the axis order TODO, DOING, PAUSED, DONE. */
  function ProcessData(tasks: seq<Task>, families: seq<Family>): (data: seq<DataPoint>)
    ensures |data| == 4
    ensures PointFor(tasks, families, data[0], TODO)
    ensures PointFor(tasks, families, data[1], DOING)
    ensures PointFor(tasks, families, data[2], PAUSED)
    ensures PointFor(tasks, families, data[3], DONE)
  {
    [DataPoint(TODO, FamilyCounts(tasks, families, TODO)),
     DataPoint(DOING, FamilyCounts(tasks, families, DOING)),
     DataPoint(PAUSED, FamilyCounts(tasks, families, PAUSED)),
     DataPoint(DONE, FamilyCounts(tasks, families, DONE))]
  }

  /** `colorMap`: the eight Tailwind background classes and their hex colours. */
  const ColorMap: map<string, string> := map[
    "bg-red-500" := "#ef4444",
    "bg-blue-500" := "#3b82f6",
    "bg-green-500" := "#22c55e",
    "bg-yellow-500" := "#eab308",
    "bg-purple-500" := "#a855f7",
    "bg-pink-500" := "#ec4899",
    "bg-indigo-500" := "#6366f1",
    "bg-teal-500" := "#14b8a6"
  ]

  /** `getColorFromTailwind`: a known class becomes its hex colour; anything else, such as a
      colour that is already hex, is passed through. */
  function ColorFromTailwind(color: string): (r: string)
    ensures color in ColorMap ==> |r| == 7 && r[0] == '#'
    ensures color !in ColorMap ==> r == color
  {
    if color in ColorMap then ColorMap[color] else color
  }

  /** A colour choice in the family creation dialog. */
  datatype ColorOption = ColorOption(value: string, name: string)

  /** The colours offered when a family is created. */
  const ColorOptions: seq<ColorOption> := [
    ColorOption("bg-red-500", "Red"),
    ColorOption("bg-blue-500", "Blue"),
    ColorOption("bg-green-500", "Green"),
    ColorOption("bg-yellow-500", "Yellow"),
    ColorOption("bg-purple-500", "Purple"),
    ColorOption("bg-pink-500", "Pink"),
    ColorOption("bg-indigo-500", "Indigo"),
    ColorOption("bg-teal-500", "Teal")
  ]

  // ---------------------------------------------------------------------------
  // Lemmas
  // ---------------------------------------------------------------------------

  /** A family's four per-status counts add up to the number of its tasks. */
  lemma {:induction false} FamilyStatusSum(tasks: seq<Task>, id: string)
    ensures Count(tasks, InFamilyWithStatus(id, TODO)) + Count(tasks, InFamilyWithStatus(id, DOING))
          + Count(tasks, InFamilyWithStatus(id, PAUSED)) + Count(tasks, InFamilyWithStatus(id, DONE))
          == Count(tasks, InFamily(id))
  {
    if tasks != [] {
      FamilyStatusSum(tasks[1..], id);
      CountCons(tasks, InFamilyWithStatus(id, TODO));
      CountCons(tasks, InFamilyWithStatus(id, DOING));
      CountCons(tasks, InFamilyWithStatus(id, PAUSED));
      CountCons(tasks, InFamilyWithStatus(id, DONE));
      CountCons(tasks, InFamily(id));
    }
  }

  /** Summing a family's bars over the four data points gives all of that family's tasks. */
  lemma FamilyBarsSum(tasks: seq<Task>, families: seq<Family>, i: nat)
    requires i < |families|
    ensures var data := ProcessData(tasks, families);
            var id := families[i].id;
            data[0].counts[id] + data[1].counts[id] + data[2].counts[id] + data[3].counts[id]
              == Count(tasks, InFamily(id))
  {
    FamilyStatusSum(tasks, families[i].id);
  }

  /** A task whose family is none of the listed ids changes no per-family count. */
  lemma {:induction false} UnmatchedFamilyCounts(tasks: seq<Task>, families: seq<Family>, t: Task, s: Status)
    requires forall i :: 0 <= i < |families| ==> t.family != Some(families[i].id)
    ensures FamilyCounts(tasks + [t], families, s) == FamilyCounts(tasks, families, s)
    decreases |families|
  {
    if families != [] {
      var last := families[|families| - 1];
      var front := families[..|families| - 1];
      assert forall i :: 0 <= i < |front| ==> front[i] == families[i];
      UnmatchedFamilyCounts(tasks, front, t, s);
      CountSnoc(tasks, t, InFamilyWithStatus(last.id, s));
    }
  }

  /** A task whose family is none of the listed ids changes no bar. */
  lemma UnmatchedTaskIgnored(tasks: seq<Task>, families: seq<Family>, t: Task)
    requires forall i :: 0 <= i < |families| ==> t.family != Some(families[i].id)
    ensures ProcessData(tasks + [t], families) == ProcessData(tasks, families)
  {
    UnmatchedFamilyCounts(tasks, families, t, TODO);
    UnmatchedFamilyCounts(tasks, families, t, DOING);
    UnmatchedFamilyCounts(tasks, families, t, PAUSED);
    UnmatchedFamilyCounts(tasks, families, t, DONE);
  }

  /** Every colour offered at family creation is translated, so families created in the app
      never fall through to the pass-through case. */
  lemma ColorOptionsTranslated()
    ensures forall k :: 0 <= k < |ColorOptions| ==> ColorOptions[k].value in ColorMap
  {
  }

  /** Different known classes get different hex colours. */
  lemma ColorMapInjective(a: string, b: string)
    requires a in ColorMap && b in ColorMap && a != b
    ensures ColorFromTailwind(a) != ColorFromTailwind(b)
  {
  }
}

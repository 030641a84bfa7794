/** The values held by the projects store: tasks, projects, the result record
    of the task actions, and the pure queries the actions are built from
    (first-match lookups, the completed count and the rounded progress). */
module ProjectModel {

  datatype Option<T> = None | Some(value: T)

  /** Upper bound on the number of tasks of one project. */
  const MaxTasks: nat := 10

  datatype Task = Task(id: string, name: string, completed: bool)

  /** `progress` is a cached percentage, recomputed by the store's actions. */
  datatype Project = Project(id: string, name: string, tasks: seq<Task>, progress: int)

  /** The `{ success, message }` record returned by the task actions. */
  datatype Outcome = Outcome(success: bool, message: string)

  const ProjectNotFound := "Proyecto no encontrado"
  const TaskNotFound := "Tarea no encontrada"
  const TaskLimitReached := "No se pueden agregar más tareas. Límite de 10 alcanzado."
  const TaskAdded := "Tarea agregada exitosamente"
  const TaskUpdated := "Tarea actualizada exitosamente"
  const TaskRemoved := "Tarea eliminada exitosamente"

  /** Index of the first project whose id is `id`, as `findIndex` / `find` give it. */
  function ProjectIndex(ps: seq<Project>, id: string): (r: Option<nat>)
    ensures r.Some? ==> r.value < |ps| && ps[r.value].id == id
    ensures r.Some? ==> forall j :: 0 <= j < r.value ==> ps[j].id != id
    ensures r.None? <==> forall j :: 0 <= j < |ps| ==> ps[j].id != id
  {
    if ps == [] then None
    else if ps[0].id == id then Some(0)
    else match ProjectIndex(ps[1..], id)
      case None => None
      case Some(k) => Some(k + 1)
  }

  /** Index of the first task whose id is `id`, as `findIndex` / `find` give it. */
  function TaskIndex(ts: seq<Task>, id: string): (r: Option<nat>)
    ensures r.Some? ==> r.value < |ts| && ts[r.value].id == id
    ensures r.Some? ==> forall j :: 0 <= j < r.value ==> ts[j].id != id
    ensures r.None? <==> forall j :: 0 <= j < |ts| ==> ts[j].id != id
  {
    if ts == [] then None
    else if ts[0].id == id then Some(0)
    else match TaskIndex(ts[1..], id)
      case None => None
      case Some(k) => Some(k + 1)
  }

  /** Two project lists with the same ids at the same positions. */
  predicate SameProjectIds(ps: seq<Project>, qs: seq<Project>)
  {
    |ps| == |qs| && forall j :: 0 <= j < |ps| ==> ps[j].id == qs[j].id
  }

  /** Two task lists with the same ids at the same positions. */
  predicate SameTaskIds(ts: seq<Task>, us: seq<Task>)
  {
    |ts| == |us| && forall j :: 0 <= j < |ts| ==> ts[j].id == us[j].id
  }

  /** Lookups by id see only the ids: renaming, toggling or recomputing
      progress never moves the first match. */
  lemma ProjectIndexSameIds(ps: seq<Project>, qs: seq<Project>, id: string)
    requires SameProjectIds(ps, qs)
    ensures ProjectIndex(ps, id) == ProjectIndex(qs, id)
  {
  }

  lemma TaskIndexSameIds(ts: seq<Task>, us: seq<Task>, id: string)
    requires SameTaskIds(ts, us)
    ensures TaskIndex(ts, id) == TaskIndex(us, id)
  {
  }

  /** The number of completed tasks: `tareas.filter(t => t.completada).length`. */
  function CompletedCount(ts: seq<Task>): (n: nat)
    ensures n <= |ts|
    ensures n == |ts| <==> forall i :: 0 <= i < |ts| ==> ts[i].completed
    ensures n == 0 <==> forall i :: 0 <= i < |ts| ==> !ts[i].completed
  {
    if ts == [] then 0
    else (if ts[0].completed then 1 else 0) + CompletedCount(ts[1..])
  }

  /** `Math.round(part / whole * 100)` on non-negative integers: the integer
      nearest to 100 * part / whole, halves rounded up. */
  function RoundedPercent(part: nat, whole: nat): (r: nat)
    requires whole > 0
    ensures 2 * whole * r <= 200 * part + whole < 2 * whole * r + 2 * whole
    ensures part <= whole ==> r <= 100
    ensures part == whole ==> r == 100
    ensures part == 0 ==> r == 0
  {
    var r := (200 * part + whole) / (2 * whole);
    PercentBounds(part, whole, r);
    r
  }

  /** The bracketing of RoundedPercent pins the result down at the ends. */
  lemma PercentBounds(part: nat, whole: nat, r: nat)
    requires whole > 0
    requires 2 * whole * r <= 200 * part + whole < 2 * whole * r + 2 * whole
    ensures part <= whole ==> r <= 100
    ensures part == whole ==> r == 100
    ensures part == 0 ==> r == 0
  {
    if part <= whole && r > 100 {
      MulMono(2 * whole, 101, r);
    }
    if part == whole && r < 100 {
      MulMono(2 * whole, r + 1, 100);
    }
    if part == 0 && r > 0 {
      MulMono(2 * whole, 1, r);
    }
  }

  lemma MulMono(a: nat, b: nat, c: nat)
    requires b <= c
    ensures a * b <= a * c
  {
  }

  /** The value `calcularProgreso` stores: 0 for an empty list, otherwise the
      rounded percentage of completed tasks. */
  function Progress(ts: seq<Task>): (r: int)
    ensures 0 <= r <= 100
    ensures ts == [] ==> r == 0
    ensures (forall i :: 0 <= i < |ts| ==> !ts[i].completed) ==> r == 0
    ensures ts != [] && (forall i :: 0 <= i < |ts| ==> ts[i].completed) ==> r == 100
  {
    if |ts| == 0 then 0 else RoundedPercent(CompletedCount(ts), |ts|)
  }

  /** Within the task limit the progress reaches its extremes exactly at the
      extremes of completion: no task can be small enough a share of its
      project to round away. */
  lemma ProgressExtremesWithinLimit(ts: seq<Task>)
    requires |ts| <= MaxTasks
    ensures Progress(ts) == 0 <==> forall i :: 0 <= i < |ts| ==> !ts[i].completed
    ensures Progress(ts) == 100 <==> ts != [] && forall i :: 0 <= i < |ts| ==> ts[i].completed
  {
  }

  /** Two tasks, one of them completed: half way. */
  lemma ProgressOfOneInTwo(ts: seq<Task>)
    requires |ts| == 2 && ts[0].completed != ts[1].completed
    ensures Progress(ts) == 50
  {
  }

  function Toggled(t: Task): (u: Task)
    ensures u.id == t.id && u.name == t.name && u.completed != t.completed
  {
    t.(completed := !t.completed)
  }

  /** Flipping one task moves the completed count by exactly one, towards the
      new state of that task. */
  lemma {:induction false} CompletedCountToggle(ts: seq<Task>, k: nat)
    requires k < |ts|
    ensures ts[k].completed ==> CompletedCount(ts[k := Toggled(ts[k])]) + 1 == CompletedCount(ts)
    ensures !ts[k].completed ==> CompletedCount(ts[k := Toggled(ts[k])]) == CompletedCount(ts) + 1
  {
    var us := ts[k := Toggled(ts[k])];
    if k == 0 {
      assert us[1..] == ts[1..];
    } else {
      assert us[1..] == ts[1..][k - 1 := Toggled(ts[k])];
      CompletedCountToggle(ts[1..], k - 1);
    }
  }

  /** The completed count sees only the completion flags: renaming tasks
      leaves it, and so the progress, as it was. */
  lemma {:induction false} CompletedCountSameFlags(ts: seq<Task>, us: seq<Task>)
    requires |ts| == |us|
    requires forall j :: 0 <= j < |ts| ==> ts[j].completed == us[j].completed
    ensures CompletedCount(ts) == CompletedCount(us)
  {
    if ts != [] {
      CompletedCountSameFlags(ts[1..], us[1..]);
    }
  }

  /** One more completed task raises the rounded percentage by at least one
      point while each task is worth at least one point (at most 100 tasks). */
  lemma PercentStepUp(c: nat, t: nat)
    requires 0 < t <= 100 && c < t
    ensures RoundedPercent(c, t) < RoundedPercent(c + 1, t)
  {
    var r0, r1 := RoundedPercent(c, t), RoundedPercent(c + 1, t);
    assert 2 * t * r0 < 2 * t * r1;
    if r1 <= r0 {
      MulMono(2 * t, r1, r0);
    }
  }

  /** Within the task limit, completing a task strictly raises the progress
      and reopening one strictly lowers it. */
  lemma ToggleMovesProgress(ts: seq<Task>, k: nat)
    requires k < |ts| <= MaxTasks
    ensures ts[k].completed ==> Progress(ts[k := Toggled(ts[k])]) < Progress(ts)
    ensures !ts[k].completed ==> Progress(ts) < Progress(ts[k := Toggled(ts[k])])
  {
    var us := ts[k := Toggled(ts[k])];
    CompletedCountToggle(ts, k);
    if ts[k].completed {
      PercentStepUp(CompletedCount(us), |ts|);
    } else {
      PercentStepUp(CompletedCount(ts), |ts|);
    }
  }

  /** The getter `puedeAgregarTareas`: whether the first project with this id
      exists and has room for another task. */
  function CanAddTasks(ps: seq<Project>, id: string): (b: bool)
    ensures b <==> exists i :: 0 <= i < |ps| && ps[i].id == id && |ps[i].tasks| < MaxTasks
                              && forall j :: 0 <= j < i ==> ps[j].id != id
    ensures (forall i :: 0 <= i < |ps| ==> ps[i].id != id) ==> !b
  {
    match ProjectIndex(ps, id)
    case None => false
    case Some(i) => |ps[i].tasks| < MaxTasks
  }

  /** A project whose task count is within the limit and whose cached
      progress is up to date. */
  predicate ProjectConsistent(p: Project)
  {
    |p.tasks| <= MaxTasks && p.progress == Progress(p.tasks)
  }

  /** The store invariant: every project is consistent. */
  predicate Consistent(ps: seq<Project>)
  {
    forall i :: 0 <= i < |ps| ==> ProjectConsistent(ps[i])
  }

  /** `p` with its progress recomputed from its tasks. */
  function Refreshed(p: Project): (q: Project)
    ensures q.id == p.id && q.name == p.name && q.tasks == p.tasks
    ensures |p.tasks| <= MaxTasks ==> ProjectConsistent(q)
  {
    p.(progress := Progress(p.tasks))
  }

  /** The project list after `toggleTareaCompletada`: the first matching
      task of the first matching project is flipped and that project's
      progress recomputed; a missing project or task changes nothing. */
  function ToggledIn(ps: seq<Project>, projectId: string, taskId: string): (qs: seq<Project>)
    ensures SameProjectIds(ps, qs)
    ensures Consistent(ps) ==> Consistent(qs)
  {
    match ProjectIndex(ps, projectId)
    case None => ps
    case Some(i) =>
      match TaskIndex(ps[i].tasks, taskId)
      case None => ps
      case Some(k) => ps[i := Refreshed(ps[i].(tasks := ps[i].tasks[k := Toggled(ps[i].tasks[k])]))]
  }

  /** On a consistent list, toggling the same task twice gives back the
      original list, cached progress included. */
  lemma ToggleTwiceRestores(ps: seq<Project>, projectId: string, taskId: string)
    requires Consistent(ps)
    ensures ToggledIn(ToggledIn(ps, projectId, taskId), projectId, taskId) == ps
  {
    var qs := ToggledIn(ps, projectId, taskId);
    ProjectIndexSameIds(ps, qs, projectId);
    match ProjectIndex(ps, projectId)
    case None =>
    case Some(i) =>
      var ts := ps[i].tasks;
      match TaskIndex(ts, taskId)
      case None =>
      case Some(k) =>
        var toggled := ts[k := Toggled(ts[k])];
        assert qs == ps[i := Refreshed(ps[i].(tasks := toggled))];
        TaskIndexSameIds(ts, toggled, taskId);
        assert toggled[k := Toggled(toggled[k])] == ts;
        assert ProjectConsistent(ps[i]);
        assert ToggledIn(qs, projectId, taskId) == qs[i := Refreshed(qs[i].(tasks := ts))];
  }
}

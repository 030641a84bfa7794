/** The projects store: an ordered list of projects that the actions update in
    place. Each action looks its project (and task) up by id with first-match
    semantics, reports lookup failures without changing anything, and
    recomputes the cached progress of the project it changed. */
module ProjectStore {
  import opened ProjectModel

  class Store {
    var projects: seq<Project>

    /** The store invariant: task counts within the limit, progress up to date. */
    ghost predicate Valid()
      reads this
    {
      Consistent(projects)
    }

    constructor ()
      ensures projects == [] && Valid()
    {
      projects := [];
    }

    /** `agregarProyecto`: appends a project with no tasks and progress 0 and
        returns it. The id is supplied by the caller. */
    method AddProject(projectId: string, name: string) returns (p: Project)
      modifies this
      ensures p == Project(projectId, name, [], 0)
      ensures projects == old(projects) + [p]
      ensures old(Valid()) ==> Valid()
    {
      p := Project(projectId, name, [], 0);
      projects := projects + [p];
    }

    /** `calcularProgreso`: recomputes the progress of the first project with
        this id; nothing else changes, and an unknown id changes nothing. */
    method RecomputeProgress(projectId: string)
      modifies this
      ensures match ProjectIndex(old(projects), projectId)
        case None => projects == old(projects)
        case Some(i) => projects == old(projects)[i := Refreshed(old(projects)[i])]
      ensures SameProjectIds(old(projects), projects)
      ensures old(Valid()) ==> Valid()
    {
      var found := ProjectIndex(projects, projectId);
      if found.Some? {
        var i := found.value;
        var p := projects[i];
        if |p.tasks| == 0 {
          projects := projects[i := p.(progress := 0)];
          return;
        }
        projects := projects[i := p.(progress := RoundedPercent(CompletedCount(p.tasks), |p.tasks|))];
      }
    }

    /** `agregarTarea`: appends a pending task to the first project with this
        id unless that project is missing or already holds MaxTasks tasks. */
    method AddTask(projectId: string, taskId: string, name: string) returns (r: Outcome)
      modifies this
      ensures r.success == CanAddTasks(old(projects), projectId)
      ensures match ProjectIndex(old(projects), projectId)
        case None =>
          r == Outcome(false, ProjectNotFound) && projects == old(projects)
        case Some(i) =>
          if |old(projects)[i].tasks| >= MaxTasks then
            r == Outcome(false, TaskLimitReached) && projects == old(projects)
          else
            r == Outcome(true, TaskAdded) &&
            projects == old(projects)[i := Refreshed(old(projects)[i].(tasks := old(projects)[i].tasks + [Task(taskId, name, false)]))]
      ensures old(Valid()) ==> Valid()
    {
      var found := ProjectIndex(projects, projectId);
      if found.None? {
        return Outcome(false, ProjectNotFound);
      }
      var i := found.value;
      var p := projects[i];
      if |p.tasks| >= MaxTasks {
        return Outcome(false, TaskLimitReached);
      }
      projects := projects[i := p.(tasks := p.tasks + [Task(taskId, name, false)])];
      ProjectIndexSameIds(old(projects), projects, projectId);
      RecomputeProgress(projectId);
      r := Outcome(true, TaskAdded);
    }

    /** `editarTarea`: renames the first task with this id in the first project
        with that id; completion, progress and everything else are kept. */
    method EditTask(projectId: string, taskId: string, newName: string) returns (r: Outcome)
      modifies this
      ensures match ProjectIndex(old(projects), projectId)
        case None =>
          r == Outcome(false, ProjectNotFound) && projects == old(projects)
        case Some(i) =>
          match TaskIndex(old(projects)[i].tasks, taskId)
          case None =>
            r == Outcome(false, TaskNotFound) && projects == old(projects)
          case Some(k) =>
            var ts := old(projects)[i].tasks;
            r == Outcome(true, TaskUpdated) &&
            projects == old(projects)[i := old(projects)[i].(tasks := ts[k := ts[k].(name := newName)])]
      ensures old(Valid()) ==> Valid()
    {
      var found := ProjectIndex(projects, projectId);
      if found.None? {
        return Outcome(false, ProjectNotFound);
      }
      var i := found.value;
      var p := projects[i];
      var at := TaskIndex(p.tasks, taskId);
      if at.None? {
        return Outcome(false, TaskNotFound);
      }
      var k := at.value;
      var ts := p.tasks[k := p.tasks[k].(name := newName)];
      CompletedCountSameFlags(p.tasks, ts);
      projects := projects[i := p.(tasks := ts)];
      r := Outcome(true, TaskUpdated);
    }

    /** `eliminarTarea`: removes the first task with this id from the first
        project with that id, keeping the order of the others. */
    method RemoveTask(projectId: string, taskId: string) returns (r: Outcome)
      modifies this
      ensures match ProjectIndex(old(projects), projectId)
        case None =>
          r == Outcome(false, ProjectNotFound) && projects == old(projects)
        case Some(i) =>
          match TaskIndex(old(projects)[i].tasks, taskId)
          case None =>
            r == Outcome(false, TaskNotFound) && projects == old(projects)
          case Some(k) =>
            var ts := old(projects)[i].tasks;
            r == Outcome(true, TaskRemoved) &&
            projects == old(projects)[i := Refreshed(old(projects)[i].(tasks := ts[..k] + ts[k + 1..]))]
      ensures r.success && old(Valid()) ==> CanAddTasks(projects, projectId)
      ensures old(Valid()) ==> Valid()
    {
      var found := ProjectIndex(projects, projectId);
      if found.None? {
        return Outcome(false, ProjectNotFound);
      }
      var i := found.value;
      var p := projects[i];
      var k := TaskIndex(p.tasks, taskId);
      if k.None? {
        return Outcome(false, TaskNotFound);
      }
      projects := projects[i := p.(tasks := p.tasks[..k.value] + p.tasks[k.value + 1..])];
      ProjectIndexSameIds(old(projects), projects, projectId);
      RecomputeProgress(projectId);
      r := Outcome(true, TaskRemoved);
    }

    /** `toggleTareaCompletada`: flips the completion of the first task with
        this id in the first project with that id and recomputes its progress;
        a missing project or task is ignored without a report. */
    method ToggleCompleted(projectId: string, taskId: string)
      modifies this
      ensures projects == ToggledIn(old(projects), projectId, taskId)
      ensures old(Valid()) ==> Valid()
    {
      var found := ProjectIndex(projects, projectId);
      if found.Some? {
        var i := found.value;
        var p := projects[i];
        var at := TaskIndex(p.tasks, taskId);
        if at.Some? {
          var k := at.value;
          projects := projects[i := p.(tasks := p.tasks[k := Toggled(p.tasks[k])])];
          ProjectIndexSameIds(old(projects), projects, projectId);
          RecomputeProgress(projectId);
        }
      }
    }
  }
}

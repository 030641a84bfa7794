/** Uses of the store that only its contracts justify: the behaviour a caller
    of the actions can rely on, shown on concrete runs and on any valid store. */
module StoreScenarios {
  import opened ProjectModel
  import opened ProjectStore

  /** Toggling the same task twice through the store restores it exactly,
      provided every cached progress was up to date. */
  method ToggleTwice(s: Store, projectId: string, taskId: string)
    requires s.Valid()
    modifies s
    ensures s.projects == old(s.projects)
  {
    ToggleTwiceRestores(s.projects, projectId, taskId);
    s.ToggleCompleted(projectId, taskId);
    s.ToggleCompleted(projectId, taskId);
  }

  /** In a store of one project, that project is the first match for its id. */
  lemma OnlyProject(ps: seq<Project>)
    requires |ps| == 1
    ensures ProjectIndex(ps, ps[0].id) == Some(0)
  {
  }

  /** Adds five tasks to the only project of `s`, which has room for them. */
  method AddFiveTasks(s: Store, tag: string)
    requires |s.projects| == 1 && |s.projects[0].tasks| + 5 <= MaxTasks
    modifies s
    ensures |s.projects| == 1 && s.projects[0].id == old(s.projects[0].id)
    ensures |s.projects[0].tasks| == old(|s.projects[0].tasks|) + 5
  {
    var id := s.projects[0].id;
    OnlyProject(s.projects);
    var r := s.AddTask(id, tag + "1", "T1");
    OnlyProject(s.projects);
    r := s.AddTask(id, tag + "2", "T2");
    OnlyProject(s.projects);
    r := s.AddTask(id, tag + "3", "T3");
    OnlyProject(s.projects);
    r := s.AddTask(id, tag + "4", "T4");
    OnlyProject(s.projects);
    r := s.AddTask(id, tag + "5", "T5");
  }

  /** A project filled to the limit refuses an eleventh task with the limit
      message and keeps its ten tasks. */
  method LimitScenario() returns (r: Outcome, count: nat)
    ensures !r.success && r.message == TaskLimitReached
    ensures count == MaxTasks
  {
    var s := new Store();
    var p := s.AddProject("p", "P1");
    AddFiveTasks(s, "a");
    AddFiveTasks(s, "b");
    OnlyProject(s.projects);
    r := s.AddTask("p", "c", "T11");
    count := |s.projects[0].tasks|;
  }

  /** One task: completing it gives 100, reopening it gives 0. */
  method ToggleScenario() returns (done: int, reopened: int)
    ensures done == 100 && reopened == 0
  {
    var s := new Store();
    var p := s.AddProject("p", "P1");
    OnlyProject(s.projects);
    var r := s.AddTask("p", "t", "T");
    OnlyProject(s.projects);
    s.ToggleCompleted("p", "t");
    done := s.projects[0].progress;
    OnlyProject(s.projects);
    s.ToggleCompleted("p", "t");
    reopened := s.projects[0].progress;
  }

  /** A new store holding one project with two pending tasks. */
  method TwoPendingTasks() returns (s: Store)
    ensures fresh(s) && |s.projects| == 1 && s.projects[0].id == "p"
    ensures s.projects[0].tasks == [Task("a", "A", false), Task("b", "B", false)]
  {
    s := new Store();
    var p := s.AddProject("p", "P1");
    OnlyProject(s.projects);
    var r := s.AddTask("p", "a", "A");
    assert |s.projects| == 1 && s.projects[0].tasks == [Task("a", "A", false)];
    OnlyProject(s.projects);
    r := s.AddTask("p", "b", "B");
  }

  /** Two tasks, one of them completed: progress 50. */
  method HalfScenario() returns (progress: int)
    ensures progress == 50
  {
    var s := TwoPendingTasks();
    ghost var ts := s.projects[0].tasks;
    assert ts[0].id != "b" && ts[1].id == "b";
    assert TaskIndex(ts, "b") == Some(1);
    OnlyProject(s.projects);
    ghost var before := s.projects;
    s.ToggleCompleted("p", "b");
    assert s.projects == before[0 := Refreshed(before[0].(tasks := ts[1 := Toggled(ts[1])]))];
    ProgressOfOneInTwo(s.projects[0].tasks);
    progress := s.projects[0].progress;
  }

  /** Removing an unknown task from an existing project reports it and keeps
      the task list. */
  method RemoveUnknownScenario() returns (r: Outcome, kept: seq<Task>)
    ensures r == Outcome(false, TaskNotFound)
    ensures kept == [Task("a", "A", false)]
  {
    var s := new Store();
    var p := s.AddProject("p", "P1");
    OnlyProject(s.projects);
    r := s.AddTask("p", "a", "A");
    OnlyProject(s.projects);
    r := s.RemoveTask("p", "z");
    kept := s.projects[0].tasks;
  }
}

# Projects store — a Dafny model

This project models the projects store of the Vue 3 "AppEstados" application
(`useProyectosStore`). The store holds an ordered list of projects. Each project
(`Proyecto`) has an id, a name, an ordered list of tasks (`Tarea`: id, name,
completion flag) and a cached integer progress percentage. No project may hold
more than `MAX_TAREAS = 10` tasks.

The store has six actions and one getter:

- `agregarProyecto` appends a project.
- `agregarTarea` appends a task, refused when the project is missing or full.
- `editarTarea` renames a task.
- `eliminarTarea` removes a task.
- `toggleTareaCompletada` flips a task's completion.
- `calcularProgreso` recomputes a project's progress.
- The getter `puedeAgregarTareas` says whether a project has room for a task.

Layout:

- `project_model.dfy` (module `ProjectModel`) holds the values and the pure
  queries:
  - the datatypes `Task`, `Project` and `Outcome` (the `{ success, message }`
    record);
  - the lookups `ProjectIndex` and `TaskIndex`, which return the first match,
    as JavaScript's `find`/`findIndex` do;
  - `CompletedCount` (the `filter(...).length`);
  - `RoundedPercent` (the `Math.round` of the percentage) and `Progress`;
  - the getter `CanAddTasks`;
  - the store invariant `Consistent`: every project has at most 10 tasks and an
    up-to-date progress.
- `project_store.dfy` (module `ProjectStore`) holds the class `Store`. Its field
  `projects: seq<Project>` is updated in place by one method per action. Each
  method states the whole new state for every branch, including the failure
  branches, which leave the state unchanged. Each method also keeps the store
  invariant (`old(Valid()) ==> Valid()`).
- `store_scenarios.dfy` (module `StoreScenarios`) holds callers of the store
  that depend only on its contracts: toggling twice restores the store, and
  concrete runs (the limit of 10 tasks, progress 100/0 and progress 50).

Rounding: `Math.round((c / t) * 100)` with `0 <= c <= t`, `t > 0` is modelled on
integers as `(200c + t) div 2t`. This rounds half up. Its contract states its
meaning: the result `r` satisfies `r - 1/2 <= 100c/t < r + 1/2`.

Ids: the source takes ids from `Date.now().toString()`. Here the caller passes
the id of the new project or task. No uniqueness is assumed; every lookup takes
the first match, as the source does.

## Model

| member | source | states |
|---|---|---|
| `ProjectModel.ProjectIndex` | Vue3_AppEstados/src/modules/projects/store/projects.store.ts:41-44 | the result is the index of the first project with the id, and None exactly when no project has it |
| `ProjectModel.TaskIndex` | Vue3_AppEstados/src/modules/projects/store/projects.store.ts:78-81 | the result is the index of the first task with the id, and None exactly when no task has it |
| `ProjectModel.ProjectIndexSameIds` | Vue3_AppEstados/src/modules/projects/store/projects.store.ts:97-98 | the project lookup depends only on the ids in order, so the lookup that `calcularProgreso` repeats after a change finds the same project |
| `ProjectModel.TaskIndexSameIds` | Vue3_AppEstados/src/modules/projects/store/projects.store.ts:90-92 | the task lookup depends only on the task ids in order, so toggling or renaming never moves the first match |
| `ProjectModel.CompletedCount` | Vue3_AppEstados/src/modules/projects/store/projects.store.ts:106 | the completed count is at most the task count; it equals the task count iff every task is completed, and is 0 iff none is |
| `ProjectModel.RoundedPercent` | Vue3_AppEstados/src/modules/projects/store/projects.store.ts:107 | the result is the integer nearest to 100·part/whole, with halves rounded up; it is at most 100 when part ≤ whole, exactly 100 when part = whole, and 0 when part = 0 |
| `ProjectModel.Progress` | Vue3_AppEstados/src/modules/projects/store/projects.store.ts:100-107 | progress lies in [0,100]; it is 0 with no tasks or none completed, and 100 when every task of a non-empty list is completed |
| `ProjectModel.ProgressExtremesWithinLimit` | Vue3_AppEstados/src/modules/projects/store/projects.store.ts:19 | with at most MaxTasks tasks, progress is 0 iff no task is completed, and 100 iff the list is non-empty and all tasks are completed |
| `ProjectModel.ProgressOfOneInTwo` | Vue3_AppEstados/src/modules/projects/store/projects.store.ts:106-107 | two tasks with exactly one completed give progress 50 |
| `ProjectModel.Toggled` | Vue3_AppEstados/src/modules/projects/store/projects.store.ts:92 | a toggled task keeps its id and name and has the opposite completion flag |
| `ProjectModel.CompletedCountToggle` | Vue3_AppEstados/src/modules/projects/store/projects.store.ts:92 | flipping one task changes the completed count by exactly one, in that task's new direction |
| `ProjectModel.CompletedCountSameFlags` | Vue3_AppEstados/src/modules/projects/store/projects.store.ts:69 | lists with the same completion flags have the same completed count, so a rename that skips the progress recomputation leaves progress correct |
| `ProjectModel.PercentStepUp` | Vue3_AppEstados/src/modules/projects/store/projects.store.ts:107 | with at most 100 tasks, one more completed task strictly raises the rounded percentage |
| `ProjectModel.ToggleMovesProgress` | Vue3_AppEstados/src/modules/projects/store/projects.store.ts:92-93 | within the task limit, completing a task strictly raises progress and reopening one strictly lowers it |
| `ProjectModel.CanAddTasks` | Vue3_AppEstados/src/modules/projects/store/projects.store.ts:22-26 | true iff the first project with the id exists and has fewer than MaxTasks tasks; false when no project has the id |
| `ProjectModel.Refreshed` | Vue3_AppEstados/src/modules/projects/store/projects.store.ts:97-108 | recomputing progress keeps id, name and tasks, and leaves a project within the limit consistent |
| `ProjectStore.Store.constructor` | Vue3_AppEstados/src/modules/projects/store/projects.store.ts:17-20 | the store starts with no projects and satisfies the invariant |
| `ProjectStore.Store.AddProject` | Vue3_AppEstados/src/modules/projects/store/projects.store.ts:30-39 | exactly one project, with no tasks and progress 0, is appended and returned; existing projects are unchanged; the invariant is kept |
| `ProjectStore.Store.RecomputeProgress` | Vue3_AppEstados/src/modules/projects/store/projects.store.ts:97-109 | only the first project with the id gets its progress recomputed; an unknown id changes nothing; ids are unchanged; the invariant is kept |
| `ProjectStore.Store.AddTask` | Vue3_AppEstados/src/modules/projects/store/projects.store.ts:40-57 | success agrees with `CanAddTasks`; a missing project or a full project gives the matching failure record with the store unchanged; success appends one pending task with the given id and name to that project only and recomputes its progress; the invariant (at most 10 tasks, progress up to date) is kept |
| `ProjectStore.Store.EditTask` | Vue3_AppEstados/src/modules/projects/store/projects.store.ts:58-71 | on success only the name of the first matching task changes (flags, order, progress and other projects are kept); a failed lookup gives its failure record with the store unchanged; the invariant is kept |
| `ProjectStore.Store.RemoveTask` | Vue3_AppEstados/src/modules/projects/store/projects.store.ts:72-86 | on success exactly the first matching task is removed, the rest keep their order and progress is recomputed; afterwards the project has room for a task again; a failed lookup gives its failure record with the store unchanged; the invariant is kept |
| `ProjectStore.Store.ToggleCompleted` | Vue3_AppEstados/src/modules/projects/store/projects.store.ts:87-96 | the new project list is `ToggledIn` of the old one; the invariant is kept |
| `ProjectModel.ToggledIn` | Vue3_AppEstados/src/modules/projects/store/projects.store.ts:87-96 | the toggle flips the first matching task of the first matching project and recomputes that project's progress, and a missing project or task changes nothing (definition); the result has the same project ids in order and stays consistent |
| `ProjectModel.ToggleTwiceRestores` | Vue3_AppEstados/src/modules/projects/store/projects.store.ts:87-96 | on a consistent list, toggling the same task twice restores every project exactly, cached progress included |
| `StoreScenarios.ToggleTwice` | Vue3_AppEstados/src/modules/projects/store/projects.store.ts:87-96 | on a consistent store, two calls of the toggle action on the same task leave the store exactly as it was |
| `StoreScenarios.LimitScenario` | Vue3_AppEstados/src/modules/projects/store/projects.store.ts:46-48 | after ten tasks are added to a new project, an eleventh is refused with the limit message and the project keeps 10 tasks |
| `StoreScenarios.ToggleScenario` | Vue3_AppEstados/src/modules/projects/store/projects.store.ts:101-107 | with a single task, completing it gives progress 100 and reopening it gives 0 |
| `StoreScenarios.HalfScenario` | Vue3_AppEstados/src/modules/projects/store/projects.store.ts:106-107 | two tasks, one of them completed, give progress 50 |
| `StoreScenarios.RemoveUnknownScenario` | Vue3_AppEstados/src/modules/projects/store/projects.store.ts:78-81 | removing an unknown task id from an existing project returns "Tarea no encontrada" and leaves the task list unchanged |

## Left out

- Pinia wiring (`defineStore`, the state/getters/actions object shape, reactive proxies) is left out. The store is a plain class, and the getter is a function of the project list.
- Id generation from the wall clock (`Date.now().toString()`) is left out. Ids are caller-supplied strings. The model assumes they are neither unique nor fresh, which the source does not guarantee either. So the uniqueness of ids, which the design intends, is not part of the store invariant.
- `MAX_TAREAS` is a state field in the source. No action changes it, so it is modelled as the constant `MaxTasks = 10`. The limit message embeds that value as the literal text "10".
- Floating-point `Math.round((c / t) * 100)` is replaced by exact integer round-half-up. With at most 10 tasks, an exact half only arises for t = 8, and 1/8, 3/8, 5/8 and 7/8 are exact in binary. So the two computations agree within the limit, but that agreement is argued here, not proved.
- `AddProject` returns the new project as a value. The source returns a reference shared with the store; later changes are visible only through the store's list.
- Concurrency does not arise: the store is single-threaded and synchronous.

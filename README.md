# Todoist clone: a Dafny model of the domain layer

This project models the server-side domain layer of a Todoist-style task
manager: workspaces, which own projects, which own sections and tasks.
Tasks carry tags and may have one level of subtasks. The model covers:

* the five Prisma-backed services (workspace, project, section, task, tag);
* the Zod input schemas;
* the effort roll-up;
* the billing guard;
* the helpers that build the static demo data.

The database is one class, `Store.Db`. It has one `seq` field per table,
with rows in insertion order. `Db.Valid()` is the invariant the services
keep:

* primary keys are unique;
* task ids are non-empty;
* every followed parent reference names an existing task;
* subtasks nest one level only.

Each service mutator is an imperative method on the `Db`. Beside it is a
pure step function `…Step` from the old tables to an `Outcome`, which
pairs the new tables with the value returned or the error thrown. The
method's `ensures` ties its writes to that function. The function's
`ensures` states what the service promises:

* the error cases;
* the rows it changes, and that nothing else changes;
* the cascade of a delete.

Lemmas show that every step keeps the invariant. The read services are
pure functions over the tables. Each states three things:

* the result is sorted by the Prisma `orderBy`;
* it is a permutation of the rows the `where` selects;
* which rows are included, in both directions.

The Zod schemas are data (`Validation.Schema`) interpreted by one
`safeParse`. Modules `Effort`, `Billing` and `DemoSeed` model
`effort.ts`, `billing.ts` and the helpers of `demo-seed.ts`.

Inputs the code gets from its environment are parameters:

* database-generated ids, with a freshness precondition;
* the clock (`now`);
* the bounds of the local calendar day;
* the signed-in user;
* the billing HTTP response.

Dates are integer milliseconds.

## Model

| member | source | states |
|---|---|---|
| Store.Db.constructor | src/services/task.service.ts:1 | a fresh store is empty and satisfies the invariant every service keeps |
| Entities.RemoveTasks | src/components/tasks/task-card.tsx:218 | deleting tasks removes exactly them and their subtasks (cascade), plus the tag links of every removed task; the other tables are untouched |
| Entities.RemoveTasksKeepsConsistency | src/components/tasks/task-card.tsx:218 | a cascading task delete keeps every parent reference pointing at an existing task |
| TaskService.NewOrder | src/services/task.service.ts:21-29 | the new order is above every sibling's order (same project, section and parent): one more than the largest, or 0 when there are no siblings |
| TaskService.ParentError | src/services/task.service.ts:9-19 | a falsy parent id is never checked; "Parent task not found" exactly when the named parent is missing; "Subtasks cannot have their own subtasks" only when the parent has a parent itself; otherwise the parent is top-level |
| TaskService.ParentCheckExact | src/services/task.service.ts:9-19 | with unique ids the check fails with the nesting error exactly when the named parent row has a parent |
| TaskService.NestingTestCases | src/__tests__/subtask-nesting.test.ts:30-50 | a subtask of a top-level task is allowed; a subtask of a subtask is refused; a missing parent is reported |
| TaskService.NewLinks | src/services/task.service.ts:41-45 | one TaskTag row per given tag id, in order |
| TaskService.CreateTaskStep | src/services/task.service.ts:8-53 | fails without writing exactly when the parent check fails; otherwise appends an OPEN task with the computed order and timestamps `now`, appends its tag links, and returns the task with its subtasks |
| TaskService.CreatedTaskComesLast | src/services/task.service.ts:21-29 | a created task sorts after every existing sibling |
| TaskService.AppendTaskConsistent | src/services/task.service.ts:9-19 | appending a row with a fresh id whose parent, if followed, is an existing top-level task keeps the invariant |
| TaskService.CreateTaskKeepsConsistency | src/services/task.service.ts:8-53 | createTask with a fresh id keeps the database invariant (one-level nesting included) |
| TaskService.CreateTask | src/services/task.service.ts:8-53 | writes the task row and then the links; the resulting state and result are those of CreateTaskStep, and the invariant holds |
| TaskService.TagIdsOfAppend | src/services/task.service.ts:58-65 | the tag ids linked to a task distribute over concatenation of link tables |
| TaskService.TagIdsOfNewLinks | src/services/task.service.ts:62-64 | the fresh links name exactly the given tags for their own task and none for any other |
| TaskService.TagIdsOfDropped | src/services/task.service.ts:59 | `deleteMany({ taskId })` leaves the task no tags and other tasks theirs |
| TaskService.ReplaceLinksExact | src/services/task.service.ts:58-65 | after replacement the task's tags are exactly the given list, and every other task's tags are unchanged |
| TaskService.Patch | src/services/task.service.ts:67-75 | an update field left undefined keeps the column, null clears it, and a value sets it |
| TaskService.ApplyUpdate | src/services/task.service.ts:67-75 | the name is set when given; description, deadline, section and effort are each kept when undefined, cleared when null and set when given; `updatedAt` becomes `now`; id, owner, project, parent, status, order and creation time are kept |
| TaskService.UpdateTaskStep | src/services/task.service.ts:55-76 | links are replaced when tagIds is given even if the task is missing; the update fails with RecordNotFound exactly when the id is not a task, and otherwise rewrites that one row |
| TaskService.UpdateTaskTags | src/services/task.service.ts:58-65 | after updateTask with tagIds the task's tags equal tagIds and other tasks keep theirs; without tagIds the links are unchanged |
| TaskService.SetTaskKeepsConsistency | src/services/task.service.ts:67-75 | rewriting a row without changing its id or parent keeps the invariant |
| TaskService.UpdateTask | src/services/task.service.ts:55-76 | the resulting state and result are those of UpdateTaskStep, and the invariant holds |
| TaskService.DeleteTaskStep | src/services/task.service.ts:78-82 | RecordNotFound without writing exactly when the id is missing; otherwise returns the row and removes it together with its subtasks and their tag links |
| TaskService.DeleteTask | src/services/task.service.ts:78-82 | the resulting state and result are those of DeleteTaskStep, and the invariant holds |
| TaskService.Toggled | src/services/task.service.ts:88 | the status always changes: OPEN becomes COMPLETED and COMPLETED becomes OPEN |
| TaskService.UpdateRow | src/services/task.service.ts:84-110 | a single-row update fails with its error and writes nothing exactly when the id is missing, and otherwise rewrites only that row |
| TaskService.ToggleStep | src/services/task.service.ts:84-93 | "Task not found" without writing exactly when the id is missing; otherwise only that row changes, its status flipped and `updatedAt` set |
| TaskService.ToggleTwice | src/services/task.service.ts:84-93 | toggling twice restores the status; only `updatedAt` records the calls |
| TaskService.ToggleTaskStatus | src/services/task.service.ts:84-93 | the resulting state and result are those of ToggleStep, and the invariant holds |
| TaskService.AssignStep | src/services/task.service.ts:95-103 | RecordNotFound exactly when the task is missing; otherwise only the task's section (null allowed) and `updatedAt` change |
| TaskService.AssignTaskToSection | src/services/task.service.ts:95-103 | the resulting state and result are those of AssignStep, and the invariant holds |
| TaskService.ReorderStep | src/services/task.service.ts:105-110 | RecordNotFound exactly when the task is missing; otherwise only its order and `updatedAt` change |
| TaskService.ReorderTask | src/services/task.service.ts:105-110 | the resulting state and result are those of ReorderStep, and the invariant holds |
| TaskService.Listing | src/services/task.service.ts:124-131 | a listing is sorted by the given order, is a permutation of the selected rows, and carries each task's relations |
| TaskService.TasksForToday | src/services/task.service.ts:112-132 | exactly the open top-level tasks whose deadline lies in [start of day, start of next day), sorted by deadline |
| TaskService.TodayWindowCases | src/__tests__/today-filter.test.ts:23-55 | midnight and 23:59 are today; yesterday, tomorrow's midnight and no deadline are not |
| TaskService.CompletedTasks | src/services/task.service.ts:134-149 | exactly the completed top-level tasks, restricted to the project when a non-empty project id is given, newest update first |
| TaskService.SearchTasks | src/services/task.service.ts:151-168 | exactly the top-level tasks whose name or description contains the query ignoring case, newest update first |
| Text.ContainsInsensitive | src/services/task.service.ts:156-157 | a case-insensitive `contains` holds exactly when the lower-cased query occurs in the lower-cased text |
| SectionService.OwnerOf | src/services/section.service.ts:8-17 | a returned owner is the user id of a workspace with that id; a missing workspace gives no owner; with unique ids the result is exactly that workspace's user id, so a null user id gives no owner |
| SectionService.VerifyProjectOwnership | src/services/section.service.ts:8-17 | "Not found" on failure; on success, the project row with that id, whose workspace belongs to the user |
| SectionService.OwnsProjectByRows | src/services/section.service.ts:8-17 | a project row whose workspace is owned by the user is owned by the user |
| SectionService.ProjectOwnershipExact | src/services/section.service.ts:8-17 | with unique keys the project check succeeds exactly when the user owns the project |
| SectionService.VerifySectionOwnership | src/services/section.service.ts:19-28 | "Not found" on failure; on success, the section row with that id, whose project the user owns |
| SectionService.OwnsSectionByRow | src/services/section.service.ts:19-28 | a section of an owned project is owned |
| SectionService.SectionOwnershipExact | src/services/section.service.ts:19-28 | with a consistent database the section check succeeds exactly when the user owns the section |
| SectionService.NewSectionOrder | src/services/section.service.ts:33-37 | a new section's order is one above the largest in the project, 0 for the first |
| SectionService.CreateSectionStep | src/services/section.service.ts:30-46 | fails with "Not found" and writes nothing exactly when the user does not own the project; otherwise appends the section at the next order |
| SectionService.CreateSection | src/services/section.service.ts:30-46 | the resulting state and result are those of CreateSectionStep, and the invariant holds |
| SectionService.UpdateSectionRow | src/services/section.service.ts:48-72 | an ownership-checked section update fails and writes nothing exactly when the check fails, and otherwise rewrites only that row |
| SectionService.UpdateSectionStep | src/services/section.service.ts:48-55 | "Not found" exactly when the user does not own the section; otherwise only its name changes |
| SectionService.UpdateSection | src/services/section.service.ts:48-55 | the resulting state and result are those of UpdateSectionStep, and the invariant holds |
| SectionService.ReorderSectionStep | src/services/section.service.ts:65-72 | "Not found" exactly when the user does not own the section; otherwise only its order changes |
| SectionService.ReorderSection | src/services/section.service.ts:65-72 | the resulting state and result are those of ReorderSectionStep, and the invariant holds |
| SectionService.DeleteSectionStep | src/services/section.service.ts:57-63 | "Not found" exactly when the user does not own the section; otherwise the section row goes and its tasks become unsectioned (section-header.tsx:106); nothing else changes |
| SectionService.DeleteSectionKeepsTasks | src/components/tasks/section-header.tsx:106 | deleting a section keeps every task and leaves none pointing at it |
| Entities.MapTasksKeepsConsistency | src/components/tasks/section-header.tsx:106 | rewriting tasks without touching ids or parents keeps the invariant |
| SectionService.DeleteSection | src/services/section.service.ts:57-63 | the resulting state and result are those of DeleteSectionStep, and the invariant holds |
| ProjectService.ByNameIsTotalOrder | src/services/project.service.ts:10 | ordering by name is a total preorder |
| ProjectService.AllProjects | src/services/project.service.ts:7-12 | every project's id and name, sorted by name, one entry per project |
| ProjectService.AllProjectsExact | src/services/project.service.ts:7-12 | an entry is listed exactly when some project has that id and name |
| ProjectService.SectionsOf | src/services/project.service.ts:18-31 | the sections of a list of section views, in the same order |
| ProjectService.SectionViewExact | src/services/project.service.ts:19-29 | a section view lists exactly the section's top-level tasks, by order |
| ProjectService.SectionViews | src/services/project.service.ts:18-31 | exactly the project's sections, sorted by order, each with its view |
| ProjectService.SortedSections | src/services/project.service.ts:18-31 | the project's sections, sorted by order, as a permutation of the selected rows |
| ProjectService.ViewsOf | src/services/project.service.ts:19-29 | the views of the given sections, in the same order |
| ProjectService.GetProject | src/services/project.service.ts:14-43 | null exactly when no project has the id; otherwise the project, its sections view, and its unsectioned top-level tasks (a permutation of exactly those rows) by order, each with its subtasks by order |
| ProjectService.GetProjectSections | src/services/project.service.ts:18-31 | each listed section belongs to the project and lists exactly its top-level tasks |
| ProjectService.CreateProjectStep | src/services/project.service.ts:45-52 | appends the project with the given workspace, name and creation time, and returns it |
| ProjectService.CreateProject | src/services/project.service.ts:45-52 | the resulting state and result are those of CreateProjectStep, and the invariant holds |
| ProjectService.UpdateProjectStep | src/services/project.service.ts:54-59 | RecordNotFound exactly when the project is missing; otherwise only its name changes |
| ProjectService.UpdateProject | src/services/project.service.ts:54-59 | the resulting state and result are those of UpdateProjectStep, and the invariant holds |
| ProjectService.RemoveProjects | src/components/tasks/sidebar.tsx:363 | deleting projects removes them, their sections, their tasks (with subtasks) and those tasks' links; every surviving task stays, unsectioned when it was filed under a removed section; no remaining task names a removed project or a removed section; workspaces and tags are untouched |
| ProjectService.RemoveProjectsTasksFrom | src/components/tasks/sidebar.tsx:363 | every task left after the project cascade is a surviving task, with its section cleared only when that section was removed |
| ProjectService.RemoveProjectsKeepsConsistency | src/components/tasks/sidebar.tsx:363 | the project cascade keeps the invariant |
| ProjectService.DeleteProjectStep | src/services/project.service.ts:61-65 | RecordNotFound exactly when the project is missing; otherwise returns it and cascades its contents |
| ProjectService.DeleteProject | src/services/project.service.ts:61-65 | the resulting state and result are those of DeleteProjectStep, and the invariant holds |
| WorkspaceService.WithCount | src/services/workspace.service.ts:12-18 | a project's count is the number of its open top-level tasks |
| WorkspaceService.ProjectsOf | src/services/workspace.service.ts:10-22 | the projects of a list of counted projects, in order |
| WorkspaceService.ProjectCounts | src/services/workspace.service.ts:10-22 | exactly the workspace's projects, oldest first, each with its open-task count |
| WorkspaceService.SortedProjects | src/services/workspace.service.ts:10-22 | the workspace's projects, oldest first, as a permutation of the selected rows |
| WorkspaceService.CountsOf | src/services/workspace.service.ts:11-20 | the counted views of the given projects, in the same order |
| WorkspaceService.WorkspacesOf | src/services/workspace.service.ts:7-25 | the workspaces of a list of workspace views, in order |
| WorkspaceService.GetWorkspaces | src/services/workspace.service.ts:7-25 | every workspace, oldest first, each with its project counts |
| WorkspaceService.ViewsOf | src/services/workspace.service.ts:7-25 | the views of the given workspaces, in the same order |
| WorkspaceService.GetWorkspace | src/services/workspace.service.ts:27-45 | null exactly when no workspace has the id; otherwise the workspace with its project counts |
| WorkspaceService.WorkspaceViewExact | src/services/workspace.service.ts:27-45 | every listed project belongs to the workspace and carries its open top-level task count |
| WorkspaceService.CreateWorkspaceStep | src/services/workspace.service.ts:47-54 | appends a workspace owned by the user, and returns it |
| WorkspaceService.CreateWorkspace | src/services/workspace.service.ts:47-54 | the resulting state and result are those of CreateWorkspaceStep, and the invariant holds |
| WorkspaceService.UpdateWorkspaceStep | src/services/workspace.service.ts:56-61 | RecordNotFound exactly when the workspace is missing; otherwise only its name changes |
| WorkspaceService.UpdateWorkspace | src/services/workspace.service.ts:56-61 | the resulting state and result are those of UpdateWorkspaceStep, and the invariant holds |
| WorkspaceService.DeleteWorkspaceStep | src/services/workspace.service.ts:63-67 | RecordNotFound exactly when missing; otherwise the workspace and all of its projects and their contents go (sidebar.tsx:363) |
| WorkspaceService.DeleteWorkspace | src/services/workspace.service.ts:63-67 | the resulting state and result are those of DeleteWorkspaceStep, and the invariant holds |
| TagService.WithCount | src/services/tag.service.ts:7-11 | a tag's count is the number of link rows naming it |
| TagService.ByNameIsTotalOrder | src/services/tag.service.ts:6 | ordering tags by name is a total preorder |
| TagService.TagsOf | src/services/tag.service.ts:4-13 | the tags of a counted list, in order |
| TagService.GetTags | src/services/tag.service.ts:4-13 | every tag, sorted by name, each with the number of its links |
| TagService.TasksByTag | src/services/tag.service.ts:38-52 | exactly the top-level tasks linked to the tag, newest update first |
| TagService.CreateTagStep | src/services/tag.service.ts:15-22 | appends a tag with the given name and colour, and returns it |
| TagService.CreateTag | src/services/tag.service.ts:15-22 | the resulting state and result are those of CreateTagStep, and the invariant holds |
| TagService.ApplyTagUpdate | src/services/tag.service.ts:24-30 | sets the name when given, and sets or clears the colour when given; id and owner are kept |
| TagService.UpdateTagStep | src/services/tag.service.ts:24-30 | RecordNotFound exactly when the tag is missing; otherwise only that tag changes |
| TagService.UpdateTag | src/services/tag.service.ts:24-30 | the resulting state and result are those of UpdateTagStep, and the invariant holds |
| TagService.DeleteTagStep | src/services/tag.service.ts:32-36 | RecordNotFound exactly when missing; otherwise the tag and every link to it go (tag-list.tsx:167), and all other tags and links stay |
| TagService.DeletedTagOnNoTask | src/app/tasks/tags/tag-list.tsx:167 | after deleting a tag no task is listed under it |
| TagService.DeleteTag | src/services/tag.service.ts:32-36 | the resulting state and result are those of DeleteTagStep, and the invariant holds |
| Views.ByOrderIsTotalOrder | src/services/task.service.ts:125 | ordering by `order` ascending is a total preorder |
| Views.LinkedTags | src/services/task.service.ts:126 | a task's included tags are tags linked to it and, with unique tag ids, every existing tag linked to it is included |
| Views.Expand | src/services/task.service.ts:124-128 | the included subtasks are exactly the rows whose parent is the task, sorted by order; the included tags are exactly the existing tags linked to it (given unique tag ids); the section is the one its section id names |
| Views.SectionOf | src/services/task.service.ts:127 | the included section is null exactly when the task has no section id or no section row has it; otherwise it is the row (the only one, with unique ids) with that id |
| Views.TasksOf | src/services/task.service.ts:112-132 | the task rows of a listing, in order |
| Views.ItemTasks | src/services/project.service.ts:32-40 | the task rows of a list of expanded tasks, in order |
| Validation.IssuesEmptyIffAccepts | src/lib/schemas/task.ts:3-22 | `safeParse` reports no issue exactly when every field of the schema is acceptable |
| Validation.EmptyNameMessage | src/lib/schemas/workspace.ts:4 | an empty name is reported first with "Name is required" |
| WorkspaceSchema.ParseCreate | src/lib/schemas/workspace.ts:3-5 | accepts exactly a string name of 1..100 characters, and otherwise returns the issues |
| WorkspaceSchema.ParseUpdate | src/lib/schemas/workspace.ts:7-10 | accepts exactly a non-empty id and a name of 1..100 characters |
| WorkspaceSchema.NameLengthBoundary | src/lib/schemas/workspace.ts:4 | 100 characters are accepted, 101 refused |
| WorkspaceSchema.SchemaTestCases | src/__tests__/schemas.test.ts:7-22 | a valid name passes; the empty name and a 101-character name fail |
| WorkspaceSchema.EmptyNameIsReported | src/__tests__/schemas.test.ts:12-15 | the empty name is refused with "Name is required" |
| ProjectSchema.ParseCreate | src/lib/schemas/project.ts:3-6 | accepts exactly a non-empty workspace id and a 1..100-character name |
| ProjectSchema.ParseUpdate | src/lib/schemas/project.ts:8-11 | accepts exactly a non-empty id and a 1..100-character name |
| SectionSchema.ParseCreate | src/lib/schemas/section.ts:3-6 | accepts exactly a non-empty project id and a 1..100-character name |
| SectionSchema.ParseUpdate | src/lib/schemas/section.ts:8-11 | accepts exactly a non-empty id and a 1..100-character name |
| SectionSchema.ParseReorder | src/lib/schemas/section.ts:13-16 | accepts exactly a non-empty id and a numeric order |
| TagSchema.ParseCreate | src/lib/schemas/tag.ts:3-6 | accepts exactly a 1..50-character name and an absent, null or at most 7-character colour |
| TagSchema.ParseUpdate | src/lib/schemas/tag.ts:8-12 | accepts exactly a non-empty id, an optional 1..50-character name and an optional nullable colour |
| TagSchema.ColorLengthBoundary | src/lib/schemas/tag.ts:5 | a 7-character colour fits, 8 do not, null is allowed |
| TaskSchema.EffortLiteralsAreTheScale | src/lib/schemas/task.ts:10-17 | the allowed effort literals are exactly the effort scale |
| TaskSchema.CreateAcceptsExact | src/lib/schemas/task.ts:3-22 | the create schema accepts exactly the inputs the create predicate describes |
| TaskSchema.UpdateAcceptsExact | src/lib/schemas/task.ts:24-42 | the update schema accepts exactly the inputs the update predicate describes |
| TaskSchema.ParseCreate | src/lib/schemas/task.ts:3-22 | succeeds exactly on valid create inputs, reading each optional field, and otherwise returns the issues |
| TaskSchema.ParseUpdate | src/lib/schemas/task.ts:24-42 | succeeds exactly on valid update inputs, keeping undefined, null and value distinct |
| TaskSchema.ParseReorder | src/lib/schemas/task.ts:44-47 | accepts exactly a non-empty id and a numeric order |
| TaskSchema.SchemaTestCases | src/__tests__/schemas.test.ts:26-59 | a full task and a minimal task pass; a missing name or project fails |
| TaskSchema.EffortOffScaleRefused | src/lib/schemas/task.ts:10-17 | an effort off the scale is refused; null clears it on update |
| Effort.EffortSumIsTotalContribution | src/lib/effort.ts:11-17 | the sum is the total of every task's contribution, where a task contributes its effort only when OPEN and scored |
| Effort.EffortSumAppend | src/lib/effort.ts:11-17 | the sum over two lists is the sum of the sums |
| Effort.EffortSumCons | src/lib/effort.ts:11-17 | prepending a task adds exactly its contribution |
| Effort.IgnoredTaskAddsNothing | src/lib/effort.ts:15 | a completed or unscored task does not change the sum |
| Effort.OpenScoredTaskAddsItsEffort | src/lib/effort.ts:15-16 | an open scored task adds exactly its effort |
| Effort.NothingOpenScoredSumsToZero | src/lib/effort.ts:11-17 | with no open scored task the sum is 0 |
| Effort.EffortSumBounds | src/lib/effort.ts:11-17 | the sum lies between 0 and 13 times the number of tasks |
| Effort.TotalContributionBounds | src/lib/effort.ts:11-17 | the total contribution lies between 0 and 13 per task |
| Effort.TotalContributionAt | src/lib/effort.ts:16 | the total from index i is task i's contribution plus the total from i+1 |
| Effort.SumFromShift | src/lib/effort.ts:16 | the fold with a starting accumulator adds that accumulator |
| Effort.TotalContributionAppend | src/lib/effort.ts:16 | contributions add over concatenation |
| Effort.EffortSumOfThree | src/lib/effort.ts:11-17 | the sum of three tasks is the sum of their contributions |
| Effort.EffortSumOfSix | src/lib/effort.ts:11-17 | the sum of six tasks is the sum of their contributions |
| Effort.OpenOnlyExample | src/__tests__/effort-rollup.test.ts:5-12 | only open tasks are summed |
| Effort.UnscoredExcludedExample | src/__tests__/effort-rollup.test.ts:14-20 | unscored tasks are excluded |
| Effort.ZeroExamples | src/__tests__/effort-rollup.test.ts:22-40 | the empty list, all completed and all unscored sum to 0 |
| Effort.MixedExample | src/__tests__/effort-rollup.test.ts:42-52 | a mix of scored, unscored, open and completed tasks sums to 14 |
| Effort.SingleExample | src/__tests__/effort-rollup.test.ts:62-65 | a single open task of effort 13 sums to 13 |
| Effort.EffortScale | src/__tests__/effort-rollup.test.ts:54-71 | the scale is 1, 2, 3, 5, 8, 13, and those six open tasks sum to 32 |
| Billing.BillingGuard | src/lib/billing.ts:37-47 | a 402 "Insufficient credits" error exactly when the status is read-only, whatever the reason; null otherwise |
| Billing.GuardIgnoresReason | src/lib/billing.ts:37-47 | the guard depends only on the mode |
| Billing.CheckBillingAccessAsWritten | src/lib/billing.ts:9-35 | read-write without a reason when the URL is unset, the fetch fails or the reply is not OK; the server's status when it answers; a rejection that escapes the catch when an OK reply has a malformed body |
| Billing.MalformedBodyRejects | src/lib/billing.ts:30 | an OK reply with a malformed body makes the code as written reject, while the corrected check fails open |
| Billing.CheckBillingAccess | src/lib/billing.ts:9-35 | the server's status when it answered with a parsed body, and read-write (fail open) in every other case |
| Billing.CorrectedAgreesWhenResolved | src/lib/billing.ts:9-35 | wherever the code as written resolves, the corrected check returns the same status |
| Billing.BlockedOnlyByServer | src/lib/billing.ts:9-47 | a mutation is blocked exactly when the billing server answered and said read-only |
| DemoSeed.MakeTag | src/data/demo-seed.ts:45-49 | throws "Unknown tag: <id>" exactly when no demo tag has the id; otherwise a `{ tag }` entry with that definition's id, name and colour, owned by the demo user |
| DemoSeed.TagDefIdsUnique | src/data/demo-seed.ts:25-34 | the eight demo tag ids are distinct |
| DemoSeed.KnownTagExample | src/data/demo-seed.ts:25-49 | demo-tag-4 yields the "High Priority" tag with its red colour |
| DemoSeed.UnknownTagExample | src/data/demo-seed.ts:45-49 | an id outside the definitions throws |
| DemoSeed.MakeTags | src/data/demo-seed.ts:84 | mapping ids through makeTag succeeds exactly when every id is known, each element is that id's tag, and otherwise the first unknown id's error is thrown |
| DemoSeed.DefaultTaskId | src/data/demo-seed.ts:71 | the default id is "demo-task-" followed by the counter |
| DemoSeed.DefaultTaskIdInjective | src/data/demo-seed.ts:71 | distinct counters give distinct default ids |
| DemoSeed.BuildTask | src/data/demo-seed.ts:53-88 | each field is its override or its default (status OPEN, order = counter, createdAt 14+counter days ago, updatedAt counter mod 5 days ago, no section); fails exactly when a tag id is unknown |
| DemoSeed.MinimalOverridesDefaults | src/data/demo-seed.ts:70-87 | with only project and name given every other field takes its default |
| DemoSeed.DefaultIdsDistinct | src/data/demo-seed.ts:69-71 | two tasks built at different counters without ids get different ids |
| DemoSeed.Seed.constructor | src/data/demo-seed.ts:51 | the counter starts at 0 |
| DemoSeed.Seed.MakeTask | src/data/demo-seed.ts:53-88 | increments the counter first and then builds the task from the new value |
| DemoSeed.Seed.MakeTwoTasks | src/data/demo-seed.ts:69-71 | two calls advance the counter by two and give two tasks without ids distinct ids |
| DemoSeed.CountOpenTasks | src/data/demo-seed.ts:582-589 | the number of OPEN tasks among the project's unsectioned tasks and its sections' tasks, at most their total |
| DemoSeed.SectionsOpenIsCount | src/data/demo-seed.ts:584-587 | the reduce over sections counts the open tasks of the concatenated section lists |
| DemoSeed.CountOnlyOpen | src/data/demo-seed.ts:582-589 | a project with no open task counts 0, and every task open counts them all |
| DemoSeed.CountIgnoresSubtasks | src/data/demo-seed.ts:582-583 | replacing an unsectioned task by one with the same status, such as one with other subtasks, keeps the count |
| DemoSeed.CountReplace | src/data/demo-seed.ts:583 | the open-task count of a list is unchanged when one task is replaced by another with the same status |
| DemoSeed.SectionsOpenReplace | src/data/demo-seed.ts:584-587 | the reduce over the sections depends only on each section's number of open tasks |
| DemoSeed.CountIgnoresSectionSubtasks | src/data/demo-seed.ts:584-587 | replacing a task inside a section by one with the same status, such as one with other subtasks, keeps the count |

## Left out

- Prisma's foreign-key and unique constraints: the schema file is not part of this model. Ids the database generates are parameters, with a freshness precondition.
- Cascade rules: they are inferred from the confirm-dialog text of the UI (task-card.tsx:218, section-header.tsx:106, sidebar.tsx:363, tag-list.tsx:167), since the Prisma schema is not available.
- Timestamps: `createdAt`/`updatedAt` defaults come from a `now` parameter. `updatedAt` is refreshed on task rows only; the section, project, workspace and tag rows do not carry it.
- Dates are integer milliseconds. The bounds of the local calendar day used by getTasksForToday are parameters. Zod's coercion of date strings is an abstract predicate (`Validation.CoercesToDate`).
- ProjectService.AllProjects, TagService.GetTags: names are ordered by Unicode code point (`Text.LexLeq`), not by the database's collation, which for a linguistic collation may put "apple" before "Banana".
- Validation.FieldOk, Validation.FieldIssues: string lengths for `min`/`max` are counted in Unicode scalar values, whereas Zod counts UTF-16 code units, so the two differ for characters outside the Basic Multilingual Plane (a name of 60 emoji has length 60 here and 120 in Zod). This carries over to every `Parse…` schema function.
- Order values are integers; JavaScript numbers are floats and not modelled.
- Case-insensitive search folds ASCII letters only; no Unicode folding.
- Concurrency, transactions and the Prisma client's I/O are abstracted into sequential updates of `Store.Db`.
- In billing.ts, the HTTP fetch, the Authorization header and console logging are abstracted: the fetch result is an input (`Billing.Response`). The JSON body is either parsed to a status or malformed; its shape is not validated. The route handlers that call the guard are not part of this model.
- Server actions, React components and the authentication helpers are not part of this model. Outside the section service the services take no user id, so tenancy is not checked there, as in the code.
- demo-seed.ts: the `now` constant is a constructor parameter of `DemoSeed.Seed`. `makeSection` and the fixture data other than the tag definitions are left out. The `section` field of a demo task is always null.
- DemoSeed.UnknownTagExample: states only that the lookup fails; the exact error text for this literal is given in general by `DemoSeed.MakeTag`.
- DemoSeed.CountOpenTasks: status is compared as a string ("OPEN"), as in the demo types; other status strings count as not open.

## Findings

| source | as written | input that shows it | evidently intended | confidence | as-written member | corrected member |
|---|---|---|---|---|---|---|
| src/lib/billing.ts:30 | `return res.json()` inside the `try` is not awaited, so a JSON parse rejection escapes the `catch` that fails open | billing URL set, fetch resolves with an OK reply whose body is not JSON | fail open to read-write, like every other error path | not executed | Billing.CheckBillingAccessAsWritten (shown by Billing.MalformedBodyRejects) | Billing.CheckBillingAccess |

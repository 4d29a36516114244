# Kanban board: board state and drag logic

This project is a Dafny model of the logic in `src/components/KanbanBoard.tsx`, the React
component of a small Kanban board. The component holds four pieces of state: the ordered
list of columns, one global list of tasks, and the column or task being dragged (shown in
the drag overlay). It offers six store operations that build a new list from the old one:

- `createColumn`
- `deletedColumn`, which also deletes that column's tasks
- `updateColumn`
- `createTask`
- `deleteTask`
- `updateTask`

It also has three drag handlers that the drag library calls: `onDragStart`, `onDragOver`
and `onDragEnd`.

A column shows the global task list filtered by `columnId`, in global order. There is no
separate per-column list.

Files:

- `sequences.dfy` (module `Sequences`): `filter`, `map` and `findIndex` on lists. It also
  holds the stable move `Move(s, from, to)` that stands for the drag library's `arrayMove`:
  take `s[from]` out, then insert it so that it sits at index `to`. The predicate
  `Placed(r, s, from, to, x)` states the outcome of a move. `r[to]` is `x`. With index `to`
  removed from `r` and index `from` removed from `s`, the two lists are equal. So every
  other element keeps its value and its relative order.
- `decimal.dfy` (module `Decimal`): the decimal rendering of a count, as used in the
  default titles `Column ${n}` and `Task ${n}`.
- `store.dfy` (module `Store`): the `Column`, `Task` and `Board` datatypes and the six store
  operations as functions. It also holds the board invariant `WellFormed`: column ids are
  unique, task ids are unique, and every task's `columnId` names an existing column. The
  lemmas relate the operations to each other and to the invariant.
- `kanban.dfy` (module `Kanban`): the component as the class `KanbanBoard`, with fields
  `columns`, `tasks`, `activeColumn` and `activeTask`. Each store operation is a method
  that replaces the lists by the store function's result. The three drag handlers are
  methods with `modifies this`. This file also has the drag event shapes, the type tags
  (`"Columns"` from `src/components/ColumnContainer.tsx:29` and `"Task"` from
  `src/components/TaskCard.tsx:21`), and two scenario methods.

How lookups that find nothing are modelled:

- Where the source indexes the task list with -1, JavaScript raises a TypeError. This
  happens at `task[activeTaskIndex].columnId` and at `task[overTaskIndex].columnId`.
  `OnDragOver` models it as the out-parameter `thrown`, and the lists stay as they were.
- Where a -1 from `findIndex` only reaches `arrayMove`, the model leaves the index open.
  `Landing` picks some in-range index. The contracts then say only that the result is some
  single stable move, or (for the dragged task) some placement.

## Model

| member | source | states |
|---|---|---|
| `Sequences.Move` | src/components/KanbanBoard.tsx:183 | the moved element sits at the target index, and the other elements keep their values and relative order |
| `Sequences.MoveAt` | src/components/KanbanBoard.tsx:214 | exactly which element ends up at each index: the elements between source and target shift by one, and the rest stay put |
| `Sequences.MoveBack` | src/components/KanbanBoard.tsx:214 | moving the element back from the target to the source index restores the list |
| `Sequences.MovePermutes` | src/components/KanbanBoard.tsx:214 | a move is a permutation: the multiset of elements is unchanged |
| `Sequences.PlacedKeepsImages` | src/components/KanbanBoard.tsx:182-183 | replacing the dragged element by one with the same id and placing it elsewhere keeps the multiset of ids |
| `Sequences.Map` | src/components/KanbanBoard.tsx:122-125 | `map`: the result has the input's length, and each element is the callback applied to the input element at the same index |
| `Sequences.IndexWhere` | src/components/KanbanBoard.tsx:180-181 | `findIndex`: -1 exactly when no element matches, and otherwise the first matching index |
| `Sequences.Filter` | src/components/KanbanBoard.tsx:114 | `filter`: an element is in the result if and only if it is in the input and passes; the result is a subsequence of the input; if every element passes, the input is returned |
| `Sequences.FilterMultiset` | src/components/KanbanBoard.tsx:140 | filtering keeps every occurrence of a passing element and drops every occurrence of a failing one |
| `Sequences.FilterAppend` | src/components/KanbanBoard.tsx:52 | filtering distributes over concatenation, so it keeps list order |
| `Sequences.FilterTwice` | src/components/KanbanBoard.tsx:117 | after a filter, a stricter filter gives the same result as the stricter filter alone |
| `Sequences.SubsequenceImages` | src/components/KanbanBoard.tsx:114 | a subsequence has no more of any id than the list it came from, so deletions keep ids unique |
| `Decimal.NatToString` | src/components/KanbanBoard.tsx:107 | the printed count is non-empty, all digits, and starts with `0` only for zero |
| `Decimal.ParsePrinted` | src/components/KanbanBoard.tsx:107 | reading back the printed count gives the count |
| `Decimal.PrintingInjective` | src/components/KanbanBoard.tsx:134 | different counts print differently |
| `Store.ColumnTasks` | src/components/KanbanBoard.tsx:52 | a column shows exactly the tasks whose `columnId` is its id, each as many times as it occurs in the global list, in global task order |
| `Store.CreateColumn` | src/components/KanbanBoard.tsx:104-111 | exactly one column is appended, with the given id and the title `Column <new column count>`; earlier columns and all tasks are unchanged |
| `Store.DeleteColumn` | src/components/KanbanBoard.tsx:113-119 | afterwards no column has the id and no task has it as `columnId`; every other column and task survives, as many times as it occurred before, in its original order; an absent id leaves the columns unchanged, and an id no task uses leaves the tasks unchanged |
| `Store.UpdateColumn` | src/components/KanbanBoard.tsx:121-128 | same length, same ids and the same tasks; only columns with that id get the new title; an absent id changes nothing |
| `Store.CreateTask` | src/components/KanbanBoard.tsx:130-137 | exactly one task is appended, with the given column and id and the content `Task <new total task count>`; earlier tasks and all columns are unchanged |
| `Store.DeleteTask` | src/components/KanbanBoard.tsx:139-142 | exactly the tasks with that id are removed; every other task survives as many times as it occurred before, in its original order; an absent id changes nothing |
| `Store.UpdateTask` | src/components/KanbanBoard.tsx:144-150 | same length, same ids, same `columnId`s and the same columns; only tasks with that id get the new content; an absent id changes nothing |
| `Store.ColumnIdsMember` | src/components/KanbanBoard.tsx:12 | an id is among the column ids if and only if some column has it |
| `Store.AppendFreshId` | src/components/KanbanBoard.tsx:110 | appending an id not yet present keeps ids unique |
| `Store.CreateColumnWellFormed` | src/components/KanbanBoard.tsx:104-111 | creating a column under a fresh id keeps the board invariant |
| `Store.DeleteColumnWellFormed` | src/components/KanbanBoard.tsx:113-119 | deleting a column keeps the board invariant: the cascade removes exactly the tasks that would be left without a column |
| `Store.UpdateColumnWellFormed` | src/components/KanbanBoard.tsx:121-128 | renaming a column keeps the board invariant |
| `Store.CreateTaskWellFormed` | src/components/KanbanBoard.tsx:130-137 | creating a task under a fresh id in an existing column keeps the board invariant |
| `Store.DeleteTaskWellFormed` | src/components/KanbanBoard.tsx:139-142 | deleting a task keeps the board invariant |
| `Store.UpdateTaskWellFormed` | src/components/KanbanBoard.tsx:144-150 | editing a task keeps the board invariant |
| `Store.DeletedColumnEmpty` | src/components/KanbanBoard.tsx:117 | after a column is deleted, its view is empty |
| `Store.DeleteColumnKeepsOtherViews` | src/components/KanbanBoard.tsx:113-119 | deleting a column leaves every other column's view exactly as it was |
| `Store.DeleteAbsentColumn` | src/components/KanbanBoard.tsx:113-119 | on a well-formed board, deleting an id that no column has leaves both lists unchanged |
| `Store.CreateTaskViews` | src/components/KanbanBoard.tsx:130-137 | a new task comes last in its column's view, and other columns' views do not change |
| `Store.UpdateColumnIdempotent` | src/components/KanbanBoard.tsx:121-128 | renaming twice with the same title equals renaming once |
| `Store.UpdateTaskIdempotent` | src/components/KanbanBoard.tsx:144-150 | editing twice with the same content equals editing once |
| `Store.ColumnTitleInjective` | src/components/KanbanBoard.tsx:107 | default titles of different column numbers differ |
| `Store.ReplayNumbering` | src/components/KanbanBoard.tsx:104-137 | in any interleaving of column and task creations, the k-th column is titled `Column k` and the k-th task `Task k`; there is one column per column creation |
| `Kanban.ColumnDraggable` | src/components/ColumnContainer.tsx:26-31 | a column card is dragged under its column's id, tagged `"Columns"` (not `"Task"`), and carries its column |
| `Kanban.TaskDraggable` | src/components/TaskCard.tsx:18-23 | a task card is dragged under its task's id, tagged `"Task"` (not `"Columns"`), and carries its task |
| `Kanban.IndexOfTask` | src/components/KanbanBoard.tsx:180-181 | the first index of a task with the id, or -1 exactly when no task has it |
| `Kanban.IndexOfColumn` | src/components/KanbanBoard.tsx:212-213 | the first index of a column with the id, or -1 exactly when no column has it |
| `Kanban.Landing` | src/components/KanbanBoard.tsx:192-194 | a found index is used as it is; for -1 some in-range index is used |
| `Kanban.PlacedTaskWellFormed` | src/components/KanbanBoard.tsx:182-183 | placing a task that keeps its id and moves to an existing column keeps the board invariant |
| `Kanban.MovedColumnsWellFormed` | src/components/KanbanBoard.tsx:211-215 | moving a column keeps the board invariant |
| `Kanban.KanbanBoard.constructor` | src/components/KanbanBoard.tsx:11-15 | the board starts with no columns, no tasks and nothing being dragged |
| `Kanban.KanbanBoard.CreateColumn` | src/components/KanbanBoard.tsx:104-111 | the lists become `Store.CreateColumn` of the old lists; the drag state is unchanged |
| `Kanban.KanbanBoard.DeleteColumn` | src/components/KanbanBoard.tsx:113-119 | the lists become `Store.DeleteColumn` of the old lists; the drag state is unchanged |
| `Kanban.KanbanBoard.UpdateColumn` | src/components/KanbanBoard.tsx:121-128 | the lists become `Store.UpdateColumn` of the old lists; the drag state is unchanged |
| `Kanban.KanbanBoard.CreateTask` | src/components/KanbanBoard.tsx:130-137 | the lists become `Store.CreateTask` of the old lists; the drag state is unchanged |
| `Kanban.KanbanBoard.DeleteTask` | src/components/KanbanBoard.tsx:139-142 | the lists become `Store.DeleteTask` of the old lists; the drag state is unchanged |
| `Kanban.KanbanBoard.UpdateTask` | src/components/KanbanBoard.tsx:144-150 | the lists become `Store.UpdateTask` of the old lists; the drag state is unchanged |
| `Kanban.KanbanBoard.OnDragStart` | src/components/KanbanBoard.tsx:152-162 | the `"Columns"` tag sets the active column from the payload; the `"Task"` tag sets the active task; any other tag changes nothing; the lists never change |
| `Kanban.KanbanBoard.OnDragOver` | src/components/KanbanBoard.tsx:164-198 | no-op unless `MovesTask` holds: it fails when there is no target (line 167), when the target is the dragged element (line 171), when the dragged element is not a task (line 176), and when the target is neither a task nor a column. Task over task: the dragged task takes the hovered task's column and ends at the hovered task's index. Task over column: it takes the column's id as `columnId`, at the index of a task with that id if there is one. A failed lookup that the source dereferences sets `thrown` and changes nothing. The multiset of task ids and all other tasks are always kept, columns are untouched, and the board invariant is kept when it held before and, for a column target, that column exists |
| `Kanban.KanbanBoard.PlaceTask` | src/components/KanbanBoard.tsx:179-184 | the task at the source index gets the new `columnId` and is placed at the target index; task ids are kept; the invariant is kept when the column exists |
| `Kanban.KanbanBoard.OnDragEnd` | src/components/KanbanBoard.tsx:200-216 | both active fields are always cleared and tasks are never touched. With no target, or the same id, columns are unchanged. If both ids are found among the columns, the dragged column moves to the target column's index. Otherwise the result is at most one stable move. The columns are always a permutation of the old ones, and the invariant is kept |
| `Kanban.KanbanBoard.MoveColumn` | src/components/KanbanBoard.tsx:211-215 | the columns become the stable move of the old columns; their multiset and the invariant are kept |
| `Kanban.DropFirstOnLast` | src/components/KanbanBoard.tsx:212-214 | with columns 1, 2, 3, column 1 is found at 0 and column 3 at 2, and moving 0 to 2 gives the order 2, 3, 1 |
| `Kanban.ColumnDropScenario` | src/components/KanbanBoard.tsx:200-216 | create columns 1, 2, 3, then drag column 1 onto column 3 and drop: the order is 2, 3, 1 |
| `Kanban.OnlyTaskPlaced` | src/components/KanbanBoard.tsx:193-194 | in a one-task list, placing the task anywhere gives the list holding just the updated task |
| `Kanban.TaskOverColumnScenario` | src/components/KanbanBoard.tsx:187-196 | with columns 1, 2 and task 10 in column 1, dragging the task over column 2 and dropping it on nothing leaves it in column 2 |

## Left out

- `generateId` (src/components/KanbanBoard.tsx:220-222) uses `Math.random` and floating
  point. New ids are method parameters instead, and need not be unique. Uniqueness is part of
  the invariant `WellFormed`, which the lemmas assume and preserve; nothing establishes it
  from `generateId`.
- `arrayMove` comes from the drag library, which is not part of this model. `Move` is
  defined for in-range indices only. When `findIndex` returns -1 and only `arrayMove`
  receives it, the model chooses an unspecified in-range index (`Landing`).
- Kanban.KanbanBoard.OnDragOver: in the Task-over-Column branch the target index comes from
  looking up the column's id among the task ids. If no task has that id, the final position
  is left open, and the contract states only the new `columnId`, the preserved ids and the
  order of the other tasks.
- Kanban.KanbanBoard.OnDragEnd: when an id is missing from the columns, as it is for a task
  drag, the contract states only that the result is some single stable move. With an empty
  column list the model leaves the columns unchanged. The library may do something else
  there.
- A TypeError from a lookup that fails in `onDragOver` is modelled as `thrown` with no state
  change. The error raised from the React state updater, and the app failure it causes,
  are not modelled.
- `onDragOver` assigns `columnId` on the shared `Task` object in place, inside React
  updater functions (src/components/KanbanBoard.tsx:182, :193). The model updates that one
  list element as a value. Aliasing with earlier state snapshots, and with the task held
  in `activeTask`, is not modelled.
- React's batching of state updates is not modelled. Each setter call is an immediate
  assignment, in source order.
- Rendering is not modelled: the JSX, `DndContext`, `SortableContext`, `DragOverlay`,
  `createPortal`, and the drag sensor's 3-pixel activation distance
  (src/components/KanbanBoard.tsx:17-23).
- `src/components/ColumnContainer.tsx` and `src/components/TaskCard.tsx` are
  presentational: edit mode, hover state, key and blur handling. Only the drag data they
  register is modelled (`ColumnDraggable`, `TaskDraggable`). Cards in edit mode cannot be
  dragged (`disabled: editMode`), and that is not modelled.
- `tailwind.config.js` is styling configuration and is not part of this model.

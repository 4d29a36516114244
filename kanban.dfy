/** The `KanbanBoard` component: the four pieces of state it holds, the store operations
    it hands to the column and task cards, and the three drag handlers it gives the drag
    library (start, over, end). */
module Kanban {
  import opened Sequences
  import opened Store

  datatype Option<T> = None | Some(value: T)

  /** The type tag a column card registers with the drag library. */
  const ColumnTag: string := "Columns"

  /** The type tag a task card registers with the drag library. */
  const TaskTag: string := "Task"

  /** The entity a card registers next to its tag. */
  datatype Payload = ColumnPayload(column: Column) | TaskPayload(task: Task)

  /** `data.current` of a drag element. */
  datatype DragData = DragData(kind: string, payload: Payload)

  /** The `active` or `over` element of a drag event: its id and its data, if any. */
  datatype Draggable = Draggable(id: Id, data: Option<DragData>)

  /** `data.current?.type === tag`. */
  predicate Tagged(d: Draggable, tag: string) {
    d.data.Some? && d.data.value.kind == tag
  }

  /** `data.current.column`, absent unless a column was registered. */
  function PayloadColumn(d: Draggable): Option<Column> {
    if d.data.Some? && d.data.value.payload.ColumnPayload? then Some(d.data.value.payload.column) else None
  }

  /** `data.current.task`, absent unless a task was registered. */
  function PayloadTask(d: Draggable): Option<Task> {
    if d.data.Some? && d.data.value.payload.TaskPayload? then Some(d.data.value.payload.task) else None
  }

  /** What a column card registers: its id, the tag `"Columns"` and the column. */
  function ColumnDraggable(c: Column): (d: Draggable)
    ensures d.id == c.id && Tagged(d, ColumnTag) && !Tagged(d, TaskTag)
    ensures PayloadColumn(d) == Some(c) && PayloadTask(d) == None
  {
    Draggable(c.id, Some(DragData(ColumnTag, ColumnPayload(c))))
  }

  /** What a task card registers: its id, the tag `"Task"` and the task. */
  function TaskDraggable(t: Task): (d: Draggable)
    ensures d.id == t.id && Tagged(d, TaskTag) && !Tagged(d, ColumnTag)
    ensures PayloadTask(d) == Some(t) && PayloadColumn(d) == None
  {
    Draggable(t.id, Some(DragData(TaskTag, TaskPayload(t))))
  }

  /** `tasks.findIndex(task => task.id === id)`. */
  function IndexOfTask(tasks: seq<Task>, id: Id): (r: int)
    ensures -1 <= r < |tasks|
    ensures r == -1 <==> forall i :: 0 <= i < |tasks| ==> tasks[i].id != id
    ensures 0 <= r ==> tasks[r].id == id && forall i :: 0 <= i < r ==> tasks[i].id != id
  {
    IndexWhere(tasks, (t: Task) => t.id == id)
  }

  /** `columns.findIndex(col => col.id === id)`. */
  function IndexOfColumn(columns: seq<Column>, id: Id): (r: int)
    ensures -1 <= r < |columns|
    ensures r == -1 <==> forall i :: 0 <= i < |columns| ==> columns[i].id != id
    ensures 0 <= r ==> columns[r].id == id && forall i :: 0 <= i < r ==> columns[i].id != id
  {
    IndexWhere(columns, (c: Column) => c.id == id)
  }

  /** A drag-over event that reaches one of the two task branches: there is a target, it
      is not the dragged element itself, the dragged element is a task, and the target is
      a task or a column. */
  predicate MovesTask(active: Draggable, over: Option<Draggable>) {
    over.Some? && active.id != over.value.id && Tagged(active, TaskTag) &&
    (Tagged(over.value, TaskTag) || Tagged(over.value, ColumnTag))
  }

  /** Placing a task that keeps its id and lands in an existing column keeps the board
      well formed. */
  lemma {:induction false} PlacedTaskWellFormed(b: Board, tasks: seq<Task>, from: int, to: int, x: Task)
    requires WellFormed(b) && Placed(tasks, b.tasks, from, to, x)
    requires x.id == b.tasks[from].id && HasColumn(b.columns, x.columnId)
    ensures WellFormed(Board(b.columns, tasks))
  {
    PlacedKeepsImages(tasks, b.tasks, from, to, x, TaskId);
    PlacedMultiset(tasks, b.tasks, from, to, x);
    forall t | t in tasks ensures HasColumn(b.columns, t.columnId) {
      assert multiset(tasks)[t] > 0;
      if t != x {
        assert multiset(b.tasks)[t] > 0;
      }
    }
  }

  /** Moving a column keeps the board well formed. */
  lemma {:induction false} MovedColumnsWellFormed(b: Board, from: nat, to: nat)
    requires WellFormed(b) && from < |b.columns| && to < |b.columns|
    ensures WellFormed(Board(Move(b.columns, from, to), b.tasks))
  {
    var columns := Move(b.columns, from, to);
    PlacedKeepsImages(columns, b.columns, from, to, b.columns[from], ColumnId);
    MovePermutes(b.columns, from, to);
    forall t | t in b.tasks ensures HasColumn(columns, t.columnId) {
      var c :| c in b.columns && c.id == t.columnId;
      assert multiset(columns)[c] > 0;
    }
  }

  /** `r` is `s` after moving the element at `from` to `to`. */
  ghost predicate SingleMove<T>(r: seq<T>, s: seq<T>, from: int, to: int) {
    0 <= from < |s| && 0 <= to < |s| && r == Move(s, from, to)
  }

  /** The index `arrayMove` acts on when given the result `i` of a lookup in a list of
      length `n`: a found index as it is; for -1 the model leaves the index open. */
  method Landing(i: int, n: nat) returns (j: nat)
    requires -1 <= i < n && 0 < n
    ensures j < n
    ensures 0 <= i ==> j == i
  {
    if 0 <= i {
      j := i;
    } else {
      j :| j < n;
    }
  }

  class KanbanBoard {
    var columns: seq<Column>
    var tasks: seq<Task>
    /** The column shown in the drag overlay, if any. */
    var activeColumn: Option<Column>
    /** The task shown in the drag overlay, if any. */
    var activeTask: Option<Task>

    function State(): Board
      reads this
    {
      Board(columns, tasks)
    }

    constructor ()
      ensures State() == Board([], []) && activeColumn == None && activeTask == None
    {
      columns := [];
      tasks := [];
      activeColumn := None;
      activeTask := None;
    }

    method CreateColumn(freshId: Id)
      modifies this
      ensures State() == Store.CreateColumn(old(State()), freshId)
      ensures activeColumn == old(activeColumn) && activeTask == old(activeTask)
    {
      columns := Store.CreateColumn(State(), freshId).columns;
    }

    method DeleteColumn(id: Id)
      modifies this
      ensures State() == Store.DeleteColumn(old(State()), id)
      ensures activeColumn == old(activeColumn) && activeTask == old(activeTask)
    {
      var next := Store.DeleteColumn(State(), id);
      columns := next.columns;
      tasks := next.tasks;
    }

    method UpdateColumn(id: Id, title: string)
      modifies this
      ensures State() == Store.UpdateColumn(old(State()), id, title)
      ensures activeColumn == old(activeColumn) && activeTask == old(activeTask)
    {
      columns := Store.UpdateColumn(State(), id, title).columns;
    }

    method CreateTask(columnId: Id, freshId: Id)
      modifies this
      ensures State() == Store.CreateTask(old(State()), columnId, freshId)
      ensures activeColumn == old(activeColumn) && activeTask == old(activeTask)
    {
      tasks := Store.CreateTask(State(), columnId, freshId).tasks;
    }

    method DeleteTask(id: Id)
      modifies this
      ensures State() == Store.DeleteTask(old(State()), id)
      ensures activeColumn == old(activeColumn) && activeTask == old(activeTask)
    {
      tasks := Store.DeleteTask(State(), id).tasks;
    }

    method UpdateTask(id: Id, content: string)
      modifies this
      ensures State() == Store.UpdateTask(old(State()), id, content)
      ensures activeColumn == old(activeColumn) && activeTask == old(activeTask)
    {
      tasks := Store.UpdateTask(State(), id, content).tasks;
    }

    /** `onDragStart`: remember the dragged column or task for the overlay. */
    method OnDragStart(active: Draggable)
      modifies this
      ensures columns == old(columns) && tasks == old(tasks)
      ensures Tagged(active, ColumnTag) ==>
        activeColumn == PayloadColumn(active) && activeTask == old(activeTask)
      ensures Tagged(active, TaskTag) ==>
        activeTask == PayloadTask(active) && activeColumn == old(activeColumn)
      ensures !Tagged(active, ColumnTag) && !Tagged(active, TaskTag) ==>
        activeColumn == old(activeColumn) && activeTask == old(activeTask)
    {
      if Tagged(active, ColumnTag) {
        activeColumn := PayloadColumn(active);
        return;
      }
      if Tagged(active, TaskTag) {
        activeTask := PayloadTask(active);
        return;
      }
    }

    /** `onDragOver`: while a task is dragged over another task it joins that task's
        column and takes its place; over a column it joins the column. `thrown` is set
        where the source dereferences the result -1 of a failed lookup (a TypeError); the
        state is then left as it was. */
    method OnDragOver(active: Draggable, over: Option<Draggable>) returns (thrown: bool)
      modifies this
      ensures columns == old(columns) && activeColumn == old(activeColumn) && activeTask == old(activeTask)
      ensures !MovesTask(active, over) ==> !thrown && tasks == old(tasks)
      ensures thrown <==>
        (MovesTask(active, over) &&
         (IndexOfTask(old(tasks), active.id) < 0 ||
          (Tagged(over.value, TaskTag) && IndexOfTask(old(tasks), over.value.id) < 0)))
      ensures thrown ==> tasks == old(tasks)
      ensures MovesTask(active, over) && !thrown && Tagged(over.value, TaskTag) ==>
        var from, to := IndexOfTask(old(tasks), active.id), IndexOfTask(old(tasks), over.value.id);
        Placed(tasks, old(tasks), from, to, old(tasks)[from].(columnId := old(tasks)[to].columnId))
      ensures MovesTask(active, over) && !thrown && Tagged(over.value, ColumnTag) ==>
        var from := IndexOfTask(old(tasks), active.id);
        exists to :: Placed(tasks, old(tasks), from, to, old(tasks)[from].(columnId := over.value.id))
      ensures (MovesTask(active, over) && !thrown && Tagged(over.value, ColumnTag) &&
               0 <= IndexOfTask(old(tasks), over.value.id)) ==>
        var from, to := IndexOfTask(old(tasks), active.id), IndexOfTask(old(tasks), over.value.id);
        Placed(tasks, old(tasks), from, to, old(tasks)[from].(columnId := over.value.id))
      ensures multiset(TaskIds(tasks)) == multiset(TaskIds(old(tasks)))
      ensures (old(WellFormed(State())) &&
               (MovesTask(active, over) && Tagged(over.value, ColumnTag) ==> HasColumn(columns, over.value.id))) ==>
        WellFormed(State())
    {
      thrown := false;
      if over.None? {
        return;
      }
      var target := over.value;
      if active.id == target.id {
        return;
      }
      var isActiveATask := Tagged(active, TaskTag);
      var isOverATask := Tagged(target, TaskTag);
      if !isActiveATask {
        return;
      }
      if isActiveATask && isOverATask {
        var from := IndexOfTask(tasks, active.id);
        var to := IndexOfTask(tasks, target.id);
        if from < 0 || to < 0 {
          thrown := true;
          return;
        }
        assert tasks[to] in tasks;
        PlaceTask(from, to, tasks[to].columnId);
      }
      var isOverAColumn := Tagged(target, ColumnTag);
      if isActiveATask && isOverAColumn {
        var from := IndexOfTask(tasks, active.id);
        var to := IndexOfTask(tasks, target.id);
        if from < 0 {
          thrown := true;
          return;
        }
        to := Landing(to, |tasks|);
        PlaceTask(from, to, target.id);
      }
    }

    /** The body of both `setTask` updaters of `onDragOver`: the task at `from` gets
        `columnId` and is then moved to `to`. */
    method PlaceTask(from: nat, to: nat, columnId: Id)
      requires from < |tasks| && to < |tasks|
      modifies this
      ensures columns == old(columns) && activeColumn == old(activeColumn) && activeTask == old(activeTask)
      ensures Placed(tasks, old(tasks), from, to, old(tasks)[from].(columnId := columnId))
      ensures multiset(TaskIds(tasks)) == multiset(TaskIds(old(tasks)))
      ensures old(WellFormed(State())) && HasColumn(columns, columnId) ==> WellFormed(State())
    {
      var dragged := tasks[from].(columnId := columnId);
      UpdateThenMove(tasks, from, to, dragged);
      PlacedKeepsImages(Move(tasks[from := dragged], from, to), tasks, from, to, dragged, TaskId);
      if WellFormed(State()) && HasColumn(columns, columnId) {
        PlacedTaskWellFormed(State(), Move(tasks[from := dragged], from, to), from, to, dragged);
      }
      tasks := Move(tasks[from := dragged], from, to);
    }

    /** `onDragEnd`: clear the overlay and move the dragged column to the target's place. */
    method OnDragEnd(active: Draggable, over: Option<Draggable>)
      modifies this
      ensures activeColumn == None && activeTask == None && tasks == old(tasks)
      ensures over.None? || active.id == over.value.id ==> columns == old(columns)
      ensures (over.Some? && active.id != over.value.id &&
               0 <= IndexOfColumn(old(columns), active.id) && 0 <= IndexOfColumn(old(columns), over.value.id)) ==>
        columns == Move(old(columns), IndexOfColumn(old(columns), active.id), IndexOfColumn(old(columns), over.value.id))
      ensures multiset(columns) == multiset(old(columns))
      ensures columns == old(columns) || exists from, to :: SingleMove(columns, old(columns), from, to)
      ensures old(WellFormed(State())) ==> WellFormed(State())
    {
      ghost var before := columns;
      activeColumn := None;
      activeTask := None;
      if over.None? {
        return;
      }
      var target := over.value;
      if active.id == target.id {
        return;
      }
      if columns == [] {
        return;
      }
      var from := Landing(IndexOfColumn(columns, active.id), |columns|);
      var to := Landing(IndexOfColumn(columns, target.id), |columns|);
      MoveColumn(from, to);
      assert SingleMove(columns, before, from, to);
    }

    /** The body of the `setColumns` updater of `onDragEnd`: move the column at `from`
        to `to`. */
    method MoveColumn(from: nat, to: nat)
      requires from < |columns| && to < |columns|
      modifies this
      ensures SingleMove(columns, old(columns), from, to)
      ensures tasks == old(tasks) && activeColumn == old(activeColumn) && activeTask == old(activeTask)
      ensures multiset(columns) == multiset(old(columns))
      ensures old(WellFormed(State())) ==> WellFormed(State())
    {
      MovePermutes(columns, from, to);
      if WellFormed(State()) {
        MovedColumnsWellFormed(State(), from, to);
      }
      columns := Move(columns, from, to);
    }
  }

  /** Three columns with ids 1, 2, 3: column 1 dropped on column 3 goes last. */
  lemma DropFirstOnLast(columns: seq<Column>)
    requires |columns| == 3 && columns[0].id == 1 && columns[1].id == 2 && columns[2].id == 3
    ensures IndexOfColumn(columns, 1) == 0 && IndexOfColumn(columns, 3) == 2
    ensures ColumnIds(Move(columns, 0, 2)) == [2, 3, 1]
  {
    MoveAt(columns, 0, 2, 0);
    MoveAt(columns, 0, 2, 1);
    MoveAt(columns, 0, 2, 2);
  }

  /** Columns C1, C2, C3; C1 is dragged onto C3 and dropped: the order is C2, C3, C1. */
  method ColumnDropScenario() returns (order: seq<Id>)
    ensures order == [2, 3, 1]
  {
    var board := new KanbanBoard();
    board.CreateColumn(1);
    board.CreateColumn(2);
    board.CreateColumn(3);
    var c1, c3 := board.columns[0], board.columns[2];
    DropFirstOnLast(board.columns);
    board.OnDragStart(ColumnDraggable(c1));
    var thrown := board.OnDragOver(ColumnDraggable(c1), Some(ColumnDraggable(c3)));
    board.OnDragEnd(ColumnDraggable(c1), Some(ColumnDraggable(c3)));
    order := ColumnIds(board.columns);
  }

  /** With a single task, wherever it is placed it is the whole list. */
  lemma OnlyTaskPlaced(r: seq<Task>, s: seq<Task>, x: Task)
    requires |s| == 1 && exists to :: Placed(r, s, 0, to, x)
    ensures r == [x]
  {
    var to :| Placed(r, s, 0, to, x);
  }

  /** Columns C1, C2 and a task T1 in C1; T1 is dragged over C2 and dropped on no target:
      T1 stays in C2, since the drop does not undo what the drag-over did. */
  method TaskOverColumnScenario() returns (moved: Task)
    ensures moved.id == 10 && moved.columnId == 2
  {
    var board := new KanbanBoard();
    board.CreateColumn(1);
    board.CreateColumn(2);
    board.CreateTask(1, 10);
    var t1, c2 := board.tasks[0], board.columns[1];
    ghost var before := board.tasks;
    assert |before| == 1 && IndexOfTask(before, 10) == 0;
    board.OnDragStart(TaskDraggable(t1));
    assert MovesTask(TaskDraggable(t1), Some(ColumnDraggable(c2)));
    var thrown := board.OnDragOver(TaskDraggable(t1), Some(ColumnDraggable(c2)));
    assert !thrown;
    OnlyTaskPlaced(board.tasks, before, t1.(columnId := 2));
    board.OnDragEnd(TaskDraggable(t1), None);
    moved := board.tasks[0];
  }
}

/** The board state store of `KanbanBoard`: the ordered column list, the single global
    task list, and the six operations that build a new list from the old one by spread,
    `filter` or `map`. */
module Store {
  import opened Sequences
  import Decimal

  /** Ids come from `generateId`, an integer; columns and tasks draw from the same range. */
  type Id = int

  datatype Column = Column(id: Id, title: string)

  datatype Task = Task(id: Id, columnId: Id, content: string)

  /** The two state lists of the board. */
  datatype Board = Board(columns: seq<Column>, tasks: seq<Task>)

  function ColumnId(c: Column): Id { c.id }

  function TaskId(t: Task): Id { t.id }

  function ColumnIds(columns: seq<Column>): seq<Id> { Map(columns, ColumnId) }

  function TaskIds(tasks: seq<Task>): seq<Id> { Map(tasks, TaskId) }

  /** Some column has the id: the membership test behind every reference to a column. */
  predicate HasColumn(columns: seq<Column>, id: Id) {
    exists c :: c in columns && c.id == id
  }

  /** The filter conditions the store and the column view use. */
  function ColumnOtherThan(id: Id): Column -> bool { (c: Column) => c.id != id }

  function TaskOtherThan(id: Id): Task -> bool { (t: Task) => t.id != id }

  function OutsideColumn(id: Id): Task -> bool { (t: Task) => t.columnId != id }

  function InColumn(id: Id): Task -> bool { (t: Task) => t.columnId == id }

  /** The tasks a column shows: the global task list filtered by `columnId`, in its order. */
  function ColumnTasks(tasks: seq<Task>, columnId: Id): (r: seq<Task>)
    ensures forall t :: t in r <==> t in tasks && t.columnId == columnId
    ensures forall t :: multiset(r)[t] == if t.columnId == columnId then multiset(tasks)[t] else 0
    ensures IsSubsequence(r, tasks)
  {
    forall t ensures multiset(Filter(tasks, InColumn(columnId)))[t] ==
      if t.columnId == columnId then multiset(tasks)[t] else 0
    {
      FilterMultiset(tasks, InColumn(columnId), t);
    }
    Filter(tasks, InColumn(columnId))
  }

  /** Default title of the n-th column, `Column ${n}`. */
  function ColumnTitle(n: nat): string { "Column " + Decimal.NatToString(n) }

  /** Default content of the n-th task, `Task ${n}`. */
  function TaskContent(n: nat): string { "Task " + Decimal.NatToString(n) }

  /** `createColumn`: one new column at the end, numbered after the new column count. */
  function CreateColumn(b: Board, freshId: Id): (r: Board)
    ensures r.tasks == b.tasks
    ensures |r.columns| == |b.columns| + 1 && r.columns[..|b.columns|] == b.columns
    ensures r.columns[|b.columns|] == Column(freshId, ColumnTitle(|r.columns|))
  {
    b.(columns := b.columns + [Column(freshId, ColumnTitle(|b.columns| + 1))])
  }

  /** `deletedColumn`: drop the column with that id and, in cascade, the tasks in it. */
  function DeleteColumn(b: Board, id: Id): (r: Board)
    ensures forall c :: c in r.columns <==> c in b.columns && c.id != id
    ensures forall t :: t in r.tasks <==> t in b.tasks && t.columnId != id
    ensures forall c :: multiset(r.columns)[c] == if c.id != id then multiset(b.columns)[c] else 0
    ensures forall t :: multiset(r.tasks)[t] == if t.columnId != id then multiset(b.tasks)[t] else 0
    ensures IsSubsequence(r.columns, b.columns) && IsSubsequence(r.tasks, b.tasks)
    ensures !HasColumn(b.columns, id) ==> r.columns == b.columns
    ensures (forall t :: t in b.tasks ==> t.columnId != id) ==> r.tasks == b.tasks
  {
    forall c ensures multiset(Filter(b.columns, ColumnOtherThan(id)))[c] ==
      if c.id != id then multiset(b.columns)[c] else 0
    {
      FilterMultiset(b.columns, ColumnOtherThan(id), c);
    }
    forall t ensures multiset(Filter(b.tasks, OutsideColumn(id)))[t] ==
      if t.columnId != id then multiset(b.tasks)[t] else 0
    {
      FilterMultiset(b.tasks, OutsideColumn(id), t);
    }
    Board(Filter(b.columns, ColumnOtherThan(id)), Filter(b.tasks, OutsideColumn(id)))
  }

  function Retitle(id: Id, title: string): Column -> Column {
    (c: Column) => if c.id != id then c else c.(title := title)
  }

  /** `updateColumn`: the columns with that id get the new title; nothing else changes. */
  function UpdateColumn(b: Board, id: Id, title: string): (r: Board)
    ensures r.tasks == b.tasks
    ensures |r.columns| == |b.columns| && ColumnIds(r.columns) == ColumnIds(b.columns)
    ensures forall i :: 0 <= i < |b.columns| ==>
      r.columns[i].title == if b.columns[i].id == id then title else b.columns[i].title
    ensures !HasColumn(b.columns, id) ==> r == b
  {
    var columns := Map(b.columns, Retitle(id, title));
    assert ColumnIds(columns) == ColumnIds(b.columns);
    assert !HasColumn(b.columns, id) ==> columns == b.columns by {
      if !HasColumn(b.columns, id) {
        assert forall i :: 0 <= i < |b.columns| ==> b.columns[i] in b.columns;
      }
    }
    b.(columns := columns)
  }

  /** `createTask`: one new task at the end of the global list, numbered after the new
      total task count (all columns together). */
  function CreateTask(b: Board, columnId: Id, freshId: Id): (r: Board)
    ensures r.columns == b.columns
    ensures |r.tasks| == |b.tasks| + 1 && r.tasks[..|b.tasks|] == b.tasks
    ensures r.tasks[|b.tasks|] == Task(freshId, columnId, TaskContent(|r.tasks|))
  {
    b.(tasks := b.tasks + [Task(freshId, columnId, TaskContent(|b.tasks| + 1))])
  }

  /** `deleteTask`: drop the tasks with that id. */
  function DeleteTask(b: Board, id: Id): (r: Board)
    ensures r.columns == b.columns
    ensures forall t :: t in r.tasks <==> t in b.tasks && t.id != id
    ensures forall t :: multiset(r.tasks)[t] == if t.id != id then multiset(b.tasks)[t] else 0
    ensures IsSubsequence(r.tasks, b.tasks)
    ensures id !in TaskIds(b.tasks) ==> r.tasks == b.tasks
  {
    forall t ensures multiset(Filter(b.tasks, TaskOtherThan(id)))[t] ==
      if t.id != id then multiset(b.tasks)[t] else 0
    {
      FilterMultiset(b.tasks, TaskOtherThan(id), t);
    }
    Board(b.columns, Filter(b.tasks, TaskOtherThan(id)))
  }

  function Rewrite(id: Id, content: string): Task -> Task {
    (t: Task) => if t.id != id then t else t.(content := content)
  }

  /** `updateTask`: the tasks with that id get the new content; nothing else changes. */
  function UpdateTask(b: Board, id: Id, content: string): (r: Board)
    ensures r.columns == b.columns
    ensures |r.tasks| == |b.tasks| && TaskIds(r.tasks) == TaskIds(b.tasks)
    ensures forall i :: 0 <= i < |b.tasks| ==>
      r.tasks[i].columnId == b.tasks[i].columnId &&
      r.tasks[i].content == if b.tasks[i].id == id then content else b.tasks[i].content
    ensures id !in TaskIds(b.tasks) ==> r == b
  {
    var tasks := Map(b.tasks, Rewrite(id, content));
    assert TaskIds(tasks) == TaskIds(b.tasks);
    assert id !in TaskIds(b.tasks) ==> tasks == b.tasks by {
      if id !in TaskIds(b.tasks) {
        assert forall i :: 0 <= i < |b.tasks| ==> TaskIds(b.tasks)[i] != id;
      }
    }
    b.(tasks := tasks)
  }

  // ---------------------------------------------------------------------------------
  // Board invariants

  ghost predicate UniqueIds(ids: seq<Id>) {
    forall x :: multiset(ids)[x] <= 1
  }

  /** Column ids are unique, task ids are unique, and every task is in an existing column. */
  ghost predicate WellFormed(b: Board) {
    UniqueIds(ColumnIds(b.columns)) && UniqueIds(TaskIds(b.tasks)) &&
    forall t :: t in b.tasks ==> HasColumn(b.columns, t.columnId)
  }

  lemma ColumnIdsMember(columns: seq<Column>, id: Id)
    ensures id in ColumnIds(columns) <==> HasColumn(columns, id)
  {
    if HasColumn(columns, id) {
      var c :| c in columns && c.id == id;
      var i :| 0 <= i < |columns| && columns[i] == c;
      assert ColumnIds(columns)[i] == id;
    }
  }

  /** Adding one id not yet present keeps ids unique. */
  lemma AppendFreshId(ids: seq<Id>, x: Id)
    requires UniqueIds(ids) && x !in ids
    ensures UniqueIds(ids + [x])
  {
    assert multiset(ids + [x]) == multiset(ids) + multiset{x};
  }

  /** Creating a column under a fresh id keeps the board well formed. */
  lemma CreateColumnWellFormed(b: Board, freshId: Id)
    requires WellFormed(b) && !HasColumn(b.columns, freshId)
    ensures WellFormed(CreateColumn(b, freshId))
  {
    var r := CreateColumn(b, freshId);
    ColumnIdsMember(b.columns, freshId);
    assert ColumnIds(r.columns) == ColumnIds(b.columns) + [freshId];
    AppendFreshId(ColumnIds(b.columns), freshId);
    forall t | t in r.tasks ensures HasColumn(r.columns, t.columnId) {
      var c :| c in b.columns && c.id == t.columnId;
      assert c in r.columns;
    }
  }

  /** Deleting a column keeps the board well formed: the cascade removes exactly the tasks
      that would otherwise point at the removed column. */
  lemma DeleteColumnWellFormed(b: Board, id: Id)
    requires WellFormed(b)
    ensures WellFormed(DeleteColumn(b, id))
  {
    var r := DeleteColumn(b, id);
    SubsequenceImages(r.columns, b.columns, ColumnId);
    SubsequenceImages(r.tasks, b.tasks, TaskId);
    forall t | t in r.tasks ensures HasColumn(r.columns, t.columnId) {
      var c :| c in b.columns && c.id == t.columnId;
      assert c in r.columns;
    }
  }

  /** Renaming a column keeps the board well formed. */
  lemma UpdateColumnWellFormed(b: Board, id: Id, title: string)
    requires WellFormed(b)
    ensures WellFormed(UpdateColumn(b, id, title))
  {
    var r := UpdateColumn(b, id, title);
    forall t | t in r.tasks ensures HasColumn(r.columns, t.columnId) {
      ColumnIdsMember(b.columns, t.columnId);
      ColumnIdsMember(r.columns, t.columnId);
    }
  }

  /** Creating a task under a fresh id in an existing column keeps the board well formed. */
  lemma CreateTaskWellFormed(b: Board, columnId: Id, freshId: Id)
    requires WellFormed(b) && HasColumn(b.columns, columnId) && freshId !in TaskIds(b.tasks)
    ensures WellFormed(CreateTask(b, columnId, freshId))
  {
    var r := CreateTask(b, columnId, freshId);
    assert TaskIds(r.tasks) == TaskIds(b.tasks) + [freshId];
    AppendFreshId(TaskIds(b.tasks), freshId);
  }

  /** Deleting a task keeps the board well formed. */
  lemma DeleteTaskWellFormed(b: Board, id: Id)
    requires WellFormed(b)
    ensures WellFormed(DeleteTask(b, id))
  {
    SubsequenceImages(DeleteTask(b, id).tasks, b.tasks, TaskId);
  }

  /** Editing a task keeps the board well formed. */
  lemma UpdateTaskWellFormed(b: Board, id: Id, content: string)
    requires WellFormed(b)
    ensures WellFormed(UpdateTask(b, id, content))
  {
    var r := UpdateTask(b, id, content);
    forall t | t in r.tasks ensures HasColumn(r.columns, t.columnId) {
      var i :| 0 <= i < |r.tasks| && r.tasks[i] == t;
      assert b.tasks[i] in b.tasks;
    }
  }

  // ---------------------------------------------------------------------------------
  // Properties relating several operations

  /** After a column is deleted no task shows in it. */
  lemma DeletedColumnEmpty(b: Board, id: Id)
    ensures ColumnTasks(DeleteColumn(b, id).tasks, id) == []
  {
    var shown := ColumnTasks(DeleteColumn(b, id).tasks, id);
    assert forall t :: t !in shown;
  }

  /** Deleting a column leaves every other column showing exactly what it showed. */
  lemma DeleteColumnKeepsOtherViews(b: Board, id: Id, other: Id)
    requires other != id
    ensures ColumnTasks(DeleteColumn(b, id).tasks, other) == ColumnTasks(b.tasks, other)
  {
    FilterTwice(b.tasks, OutsideColumn(id), InColumn(other));
  }

  /** Deleting a column that does not exist leaves a well-formed board unchanged. */
  lemma DeleteAbsentColumn(b: Board, id: Id)
    requires WellFormed(b) && !HasColumn(b.columns, id)
    ensures DeleteColumn(b, id) == b
  {
  }

  /** A new task comes last in its column's view; other columns' views do not change. */
  lemma CreateTaskViews(b: Board, columnId: Id, freshId: Id, other: Id)
    ensures ColumnTasks(CreateTask(b, columnId, freshId).tasks, columnId) ==
      ColumnTasks(b.tasks, columnId) + [Task(freshId, columnId, TaskContent(|b.tasks| + 1))]
    ensures other != columnId ==>
      ColumnTasks(CreateTask(b, columnId, freshId).tasks, other) == ColumnTasks(b.tasks, other)
  {
    var t := Task(freshId, columnId, TaskContent(|b.tasks| + 1));
    FilterAppend(b.tasks, [t], InColumn(columnId));
    FilterAppend(b.tasks, [t], InColumn(other));
    assert Filter([t], InColumn(columnId)) == [t];
    if other != columnId {
      assert Filter([t], InColumn(other)) == [];
    }
  }

  /** Renaming a column twice with the same title is the same as renaming it once. */
  lemma UpdateColumnIdempotent(b: Board, id: Id, title: string)
    ensures UpdateColumn(UpdateColumn(b, id, title), id, title) == UpdateColumn(b, id, title)
  {
    var once := UpdateColumn(b, id, title);
    var twice := UpdateColumn(once, id, title);
    assert forall i :: 0 <= i < |b.columns| ==> ColumnIds(b.columns)[i] == b.columns[i].id;
    assert forall i :: 0 <= i < |b.columns| ==> twice.columns[i] == once.columns[i];
  }

  /** Editing a task twice with the same content is the same as editing it once. */
  lemma UpdateTaskIdempotent(b: Board, id: Id, content: string)
    ensures UpdateTask(UpdateTask(b, id, content), id, content) == UpdateTask(b, id, content)
  {
    var once := UpdateTask(b, id, content);
    var twice := UpdateTask(once, id, content);
    assert forall i :: 0 <= i < |b.tasks| ==> TaskIds(b.tasks)[i] == b.tasks[i].id;
    assert forall i :: 0 <= i < |b.tasks| ==> twice.tasks[i] == once.tasks[i];
  }

  /** Default titles of different columns differ. */
  lemma ColumnTitleInjective(m: nat, n: nat)
    requires ColumnTitle(m) == ColumnTitle(n)
    ensures m == n
  {
    var prefix := "Column ";
    assert ColumnTitle(m)[|prefix|..] == Decimal.NatToString(m);
    assert ColumnTitle(n)[|prefix|..] == Decimal.NatToString(n);
    Decimal.PrintingInjective(m, n);
  }

  /** The creating actions of the board, in the order the user performs them. */
  datatype Creation = AddColumn(columnId: Id) | AddTask(taskId: Id, inColumn: Id)

  function Apply(b: Board, step: Creation): Board {
    match step
    case AddColumn(id) => CreateColumn(b, id)
    case AddTask(id, columnId) => CreateTask(b, columnId, id)
  }

  function Replay(b: Board, steps: seq<Creation>): Board
    decreases |steps|
  {
    if steps == [] then b else Replay(Apply(b, steps[0]), steps[1..])
  }

  function ColumnsAdded(steps: seq<Creation>): nat
    decreases |steps|
  {
    if steps == [] then 0 else (if steps[0].AddColumn? then 1 else 0) + ColumnsAdded(steps[1..])
  }

  /** Columns carry `Column k` and tasks `Task k`, k counting from 1 in list order. */
  ghost predicate DefaultNumbering(b: Board) {
    (forall k :: 0 <= k < |b.columns| ==> b.columns[k].title == ColumnTitle(k + 1)) &&
    (forall k :: 0 <= k < |b.tasks| ==> b.tasks[k].content == TaskContent(k + 1))
  }

  /** Any interleaving of column and task creations numbers columns among columns only and
      tasks among tasks only, and adds one column per column creation. */
  lemma {:induction false} ReplayNumbering(b: Board, steps: seq<Creation>)
    requires DefaultNumbering(b)
    ensures DefaultNumbering(Replay(b, steps))
    ensures |Replay(b, steps).columns| == |b.columns| + ColumnsAdded(steps)
    decreases |steps|
  {
    if steps != [] {
      var next := Apply(b, steps[0]);
      assert DefaultNumbering(next);
      ReplayNumbering(next, steps[1..]);
    }
  }
}

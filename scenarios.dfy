/**
 * Concrete runs of the interactive tracker: each method builds an `App`, drives
 * it through its commands, and states what the run ends with. Mode switches and
 * typing into the buffers, which belong to the key dispatcher, are field writes.
 */
module AppScenarios {
  import opened Wrappers
  import opened Strings
  import opened Tasks
  import opened View
  import opened TodoApp

  /** A task with only a name, an id and a status. */
  function Named(id: nat, name: string, completed: bool): Task {
    Task(id, name, completed, Medium, None, [], [])
  }

  /** A one-letter capital name does not contain the query "todo". */
  lemma LetterLacksTodo(t: Task, c: char)
    requires t.description == [c] && 'A' <= c <= 'Z' && c != 'T'
    requires t.tags == [] && t.subTasks == [] && t.dueDate.None?
    ensures Matches(t, "todo") <==> !t.completed
  {
    CapitalisedWord(c, "");
    assert LowerChar(c) != 't';
    assert [c] + "" == [c];
    NotContained(Lowercase(t.description), [LowerChar(c)], "todo", 't');
    PlainTaskMatches(t, "todo");
  }

  /** With the first task done and the others open, the query "todo" shows the other two. */
  lemma PendingQueryDropsFirst(a: Task, b: Task, c: Task)
    requires !Matches(a, "todo") && Matches(b, "todo") && Matches(c, "todo")
    ensures FilterTasks([a, b, c], "todo") == [b, c]
  {
    LowercaseWithoutCapitals("todo");
    assert [a, b, c] == [a] + [b, c];
    KeepMatchingAppend([a], [b, c], "todo");
    assert KeepMatching([a], "todo") == [] by {
      assert [a][1..] == [];
    }
    KeepMatchingAllMatch([b, c], "todo");
  }

  /** In Search mode with the query "todo", the tasks A (done), B and C (open) show as B, C. */
  lemma ShownPending(a: Task, b: Task, c: Task)
    requires a == Named(1, "A", true) && b == Named(2, "B", false) && c == Named(3, "C", false)
    ensures DisplayedTasks([a, b, c], Search, "todo") == [b, c]
  {
    LetterLacksTodo(a, 'A');
    LetterLacksTodo(b, 'B');
    LetterLacksTodo(c, 'C');
    PendingQueryDropsFirst(a, b, c);
  }

  /**
   * Identity-safe toggling: with tasks 1, 2, 3 stored, task 1 done and the search
   * "todo" showing only tasks 2 and 3, toggling displayed row 0 completes task 2
   * and leaves tasks 1 and 3 as they were.
   */
  method IdentitySafeToggle() returns (before: seq<Task>, shown: seq<Task>, after: seq<Task>)
    ensures |before| == 3 && before[1].id == 2 && !before[1].completed
    ensures shown == [before[1], before[2]]
    ensures after == [before[0], before[1].(completed := true), before[2]]
  {
    var a, b, c := Named(1, "A", true), Named(2, "B", false), Named(3, "C", false);
    var app := new App([a, b, c]);
    app.mode := Search;
    app.searchInput := "todo";
    ShownPending(a, b, c);
    before, shown := app.tasks, app.Displayed();
    ToggleFirstShown(app, a, b, c);
    after := app.tasks;
  }

  /** Toggling row 0 when the store is `x, y, z` and the rows are `y, z` flips `y` alone. */
  method ToggleFirstShown(app: App, x: Task, y: Task, z: Task)
    requires app.tasks == [x, y, z] && app.Displayed() == [y, z]
    requires app.selected == Some(0) && x.id != y.id
    modifies app`tasks
    ensures app.tasks == [x, y.(completed := !y.completed), z]
  {
    assert app.Target() == Some(1);
    app.ToggleCompleted();
  }

  /**
   * Clamping after a deletion: with three rows shown and the last one selected,
   * deleting it leaves two rows and the selection on the new last row.
   */
  method DeleteLastOfThree() returns (remaining: seq<Task>, selected: Option<nat>)
    ensures remaining == [Named(1, "A", false), Named(2, "B", false)]
    ensures selected == Some(1)
  {
    var a, b, c := Named(1, "A", false), Named(2, "B", false), Named(3, "C", false);
    var app := new App([a, b, c]);
    app.Next();
    app.Next();
    assert app.selected == Some(2);
    app.DeleteTask();
    assert [a, b, c][..2] == [a, b];
    remaining, selected := app.tasks, app.selected;
  }

  /**
   * The empty list: deleting the only task leaves nothing shown and no selection,
   * and moving down or up afterwards changes nothing.
   */
  method DeleteOnlyTask() returns (remaining: seq<Task>, afterDelete: Option<nat>, afterMoves: Option<nat>)
    ensures remaining == [] && afterDelete == None && afterMoves == None
  {
    var app := new App([Named(1, "A", false)]);
    app.DeleteTask();
    remaining, afterDelete := app.tasks, app.selected;
    app.Next();
    app.Previous();
    afterMoves := app.selected;
  }

  /** Three additions to an empty list give ids 1, 2, 3, in order. */
  method ThreeAdditions() returns (ids: seq<nat>)
    ensures ids == [1, 2, 3]
  {
    var app := new App([]);
    app.AddTask(None);
    AppendedIds([], app.tasks[0]);
    var one := app.tasks;
    assert IdsOf(one) == [1];
    app.AddTask(None);
    AppendedIds(one, app.tasks[1]);
    var two := app.tasks;
    assert IdsOf(two) == [1, 2];
    app.AddTask(None);
    AppendedIds(two, app.tasks[2]);
    ids := IdsOf(app.tasks);
  }

  /**
   * An addition after a deletion: with ids 1, 2, 3 stored and task 1 deleted, the
   * next addition gets 4, one more than the largest id left, not the freed 1.
   */
  method AddAfterDeletingFirst() returns (ids: seq<nat>)
    ensures ids == [2, 3, 4]
  {
    var app := new App([Named(1, "A", false), Named(2, "B", false), Named(3, "C", false)]);
    app.DeleteTask();
    var rest := app.tasks;
    assert IdsOf(rest) == [2, 3];
    app.AddTask(None);
    AppendedIds(rest, app.tasks[2]);
    ids := IdsOf(app.tasks);
  }

  /** Three priority cycles on the selected task give it back its priority and change nothing else. */
  method CycleThreeTimes() returns (before: seq<Task>, after: seq<Task>)
    ensures before == after
  {
    var app := new App([Named(1, "A", false), Named(2, "B", false)]);
    app.Next();
    before := app.tasks;
    app.CyclePriority();
    app.CyclePriority();
    app.CyclePriority();
    PriorityCycleCloses(before[1].priority);
    after := app.tasks;
  }
}

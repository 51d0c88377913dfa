/**
 * The interactive tracker's state and its commands. Every command that acts on
 * "the selected task" turns the selected row of the displayed list into an id,
 * finds the first top-level task of the store with that id and changes that
 * task, never the row at the same position of the store.
 */
module TodoApp {
  import opened Wrappers
  import opened Tasks
  import opened View
  import opened Selection

  /** Rust's `u16`. */
  type U16 = m: int | 0 <= m <= 0xFFFF

  /** `saturating_sub(1)` on a `u16`: one less, but never below 0. */
  function SaturatingDecrement(m: U16): (r: U16)
    ensures m > 0 ==> r == m - 1
    ensures m == 0 ==> r == 0
  {
    if m > 0 then m - 1 else 0
  }

  /** `saturating_add(1)` on a `u16`: one more, but never above 65535. */
  function SaturatingIncrement(m: U16): (r: U16)
    ensures m < 0xFFFF ==> r == m + 1
    ensures m == 0xFFFF ==> r == 0xFFFF
  {
    if m < 0xFFFF then m + 1 else 0xFFFF
  }

  /** Zooming out and back in, or in and back out away from the bounds, restores the margin. */
  lemma ZoomRoundTrip(m: U16)
    ensures m < 0xFFFF ==> SaturatingDecrement(SaturatingIncrement(m)) == m
    ensures m > 0 ==> SaturatingIncrement(SaturatingDecrement(m)) == m
  {
  }

  /** `after` is `before` with at most the task at `target` replaced. */
  ghost predicate OnlyChanged(before: seq<Task>, after: seq<Task>, target: Option<nat>) {
    |after| == |before| && forall j :: 0 <= j < |before| && target != Some(j) ==> after[j] == before[j]
  }

  class App {
    var tasks: seq<Task>
    var selected: Option<nat>
    var mode: AppMode
    var input: string
    var dateInput: string
    var searchInput: string
    var margin: U16
    var addingSubtask: bool

    /** `App::new`, with the list read from the task file passed in. */
    constructor (loaded: seq<Task>)
      ensures tasks == loaded
      ensures selected == if |loaded| > 0 then Some(0) else None
      ensures mode == Normal && input == "" && dateInput == "" && searchInput == ""
      ensures margin == 1 && !addingSubtask
    {
      tasks := loaded;
      selected := if |loaded| > 0 then Some(0) else None;
      mode := Normal;
      input, dateInput, searchInput := "", "", "";
      margin := 1;
      addingSubtask := false;
    }

    /** `get_displayed_tasks`. */
    function Displayed(): seq<Task>
      reads this`tasks, this`mode, this`searchInput
    {
      DisplayedTasks(tasks, mode, searchInput)
    }

    /** The selection designates a row of the displayed list. */
    predicate SelectionValid()
      reads this`tasks, this`mode, this`searchInput, this`selected
    {
      selected.Some? && selected.value < |Displayed()|
    }

    /**
     * The position in `tasks` of the task a command on the selection acts on:
     * the first task whose id is the id of the selected displayed row. There is
     * one exactly when the selection designates a displayed row.
     */
    function Target(): (r: Option<nat>)
      reads this`tasks, this`mode, this`searchInput, this`selected
      ensures r.Some? <==> SelectionValid()
      ensures r.Some? ==> r.value < |tasks| && tasks[r.value].id == Displayed()[selected.value].id
      ensures r.Some? ==> forall j :: 0 <= j < r.value ==> tasks[j].id != Displayed()[selected.value].id
    {
      match selected
      case None => None
      case Some(i) =>
        var d := Displayed();
        if i < |d| then
          DisplayedIdResolves(tasks, mode, searchInput, i);
          FindById(tasks, d[i].id)
        else None
    }

    /** `zoom_in`. */
    method ZoomIn()
      modifies this`margin
      ensures margin == SaturatingDecrement(old(margin))
    {
      margin := SaturatingDecrement(margin);
    }

    /** `zoom_out`. */
    method ZoomOut()
      modifies this`margin
      ensures margin == SaturatingIncrement(old(margin))
    {
      margin := SaturatingIncrement(margin);
    }

    /** `next`: the selection moves one displayed row down, circularly. */
    method Next()
      modifies this`selected
      ensures selected == Advance(old(selected), |Displayed()|)
      ensures |Displayed()| > 0 ==> SelectionValid()
    {
      var d := Displayed();
      if |d| == 0 {
        return;
      }
      var i := match selected
        case None => 0
        case Some(i) => (i + 1) % |d|;
      selected := Some(i);
    }

    /** `previous`: the selection moves one displayed row up, circularly. */
    method Previous()
      modifies this`selected
      ensures selected == Retreat(old(selected), |Displayed()|)
      ensures |Displayed()| > 0 ==> SelectionValid()
    {
      var d := Displayed();
      if |d| == 0 {
        return;
      }
      var i := match selected
        case None => 0
        case Some(i) => (i + |d| - 1) % |d|;
      selected := Some(i);
    }

    /** `toggle_completed`: flips `completed` of the target task and of no other. */
    method ToggleCompleted()
      modifies this`tasks
      ensures OnlyChanged(old(tasks), tasks, old(Target()))
      ensures old(Target()).Some? ==>
        var k := old(Target()).value;
        tasks[k] == old(tasks)[k].(completed := !old(tasks)[k].completed)
    {
      if selected.Some? {
        var i := selected.value;
        var d := Displayed();
        if i < |d| {
          var found := FindById(tasks, d[i].id);
          if found.Some? {
            var k := found.value;
            tasks := tasks[k := tasks[k].(completed := !tasks[k].completed)];
          }
        }
      }
    }

    /** `cycle_priority`: moves the target task one step along Low → Medium → High → Low. */
    method CyclePriority()
      modifies this`tasks
      ensures OnlyChanged(old(tasks), tasks, old(Target()))
      ensures old(Target()).Some? ==>
        var k := old(Target()).value;
        tasks[k] == old(tasks)[k].(priority := NextPriority(old(tasks)[k].priority))
    {
      if selected.Some? {
        var i := selected.value;
        var d := Displayed();
        if i < |d| {
          var found := FindById(tasks, d[i].id);
          if found.Some? {
            var k := found.value;
            tasks := tasks[k := tasks[k].(priority := NextPriority(tasks[k].priority))];
          }
        }
      }
    }

    /**
     * `add_task`. With `addingSubtask` set it adds a subtask (see `AddSubTask`) and
     * clears the flag; otherwise it appends one task built from the input buffer
     * with the next top-level id, and empties the buffer. Either way the mode
     * becomes Normal. `parsedDue` is what the date parser made of the input.
     */
    method AddTask(parsedDue: Option<string>)
      modifies this`tasks, this`input, this`mode, this`addingSubtask
      ensures mode == Normal && !addingSubtask
      ensures old(addingSubtask) ==> SubtaskAdded(parsedDue)
      ensures !old(addingSubtask) ==>
        && tasks == old(tasks) + [NewTask(NextIdAmong(old(tasks)), old(input), parsedDue)]
        && input == ""
    {
      if addingSubtask {
        AddSubTask(parsedDue);
        addingSubtask := false;
      } else {
        var newId := NextIdAmong(tasks);
        var task := NewTask(newId, input, parsedDue);
        input := "";
        tasks := tasks + [task];
      }
      mode := Normal;
    }

    /**
     * What `add_sub_task` does to the store and the input buffer: with a target
     * task, one subtask built from the buffer, numbered after its siblings, is
     * appended to that task's subtasks and the buffer is emptied; without one,
     * neither changes.
     */
    twostate predicate SubtaskAdded(parsedDue: Option<string>)
      reads this
    {
      && OnlyChanged(old(tasks), tasks, old(Target()))
      && (old(Target()).None? ==> tasks == old(tasks) && input == old(input))
      && (old(Target()).Some? ==>
            var k := old(Target()).value;
            var parent := old(tasks)[k];
            var sub := NewTask(NextIdAmong(parent.subTasks), old(input), parsedDue);
            tasks[k] == parent.(subTasks := parent.subTasks + [sub]) && input == "")
    }

    /** `add_sub_task`; the mode becomes Normal whether or not a subtask was added. */
    method AddSubTask(parsedDue: Option<string>)
      modifies this`tasks, this`input, this`mode
      ensures mode == Normal
      ensures SubtaskAdded(parsedDue)
    {
      if selected.Some? {
        var i := selected.value;
        var d := Displayed();
        if i < |d| {
          var found := FindById(tasks, d[i].id);
          if found.Some? {
            var k := found.value;
            var parent := tasks[k];
            var newId := NextIdAmong(parent.subTasks);
            var sub := NewTask(newId, input, parsedDue);
            input := "";
            tasks := tasks[k := parent.(subTasks := parent.subTasks + [sub])];
          }
        }
      }
      mode := Normal;
    }

    /**
     * `set_due_date`: the target task's due date becomes the date buffer, which is
     * emptied; without a target nothing but the mode changes.
     */
    method SetDueDate()
      modifies this`tasks, this`dateInput, this`mode
      ensures mode == Normal
      ensures OnlyChanged(old(tasks), tasks, old(Target()))
      ensures old(Target()).None? ==> dateInput == old(dateInput)
      ensures old(Target()).Some? ==>
        var k := old(Target()).value;
        tasks[k] == old(tasks)[k].(dueDate := Some(old(dateInput))) && dateInput == ""
    {
      if selected.Some? {
        var i := selected.value;
        var d := Displayed();
        if i < |d| {
          var found := FindById(tasks, d[i].id);
          if found.Some? {
            var k := found.value;
            tasks := tasks[k := tasks[k].(dueDate := Some(dateInput))];
            dateInput := "";
          }
        }
      }
      mode := Normal;
    }

    /**
     * `delete_task`: removes the target task (and with it its subtasks), keeping
     * the others in order, then clamps the selection to the new displayed list.
     * Without a target nothing changes.
     */
    method DeleteTask()
      modifies this`tasks, this`selected
      ensures old(Target()).None? ==> tasks == old(tasks) && selected == old(selected)
      ensures old(Target()).Some? ==>
        var k := old(Target()).value;
        && tasks == old(tasks)[..k] + old(tasks)[k + 1..]
        && |tasks| == |old(tasks)| - 1
        && selected == ClampAfterDelete(old(selected).value, |Displayed()|)
      ensures old(Target()).Some? ==> (SelectionValid() <==> |Displayed()| > 0)
    {
      if selected.Some? {
        var i := selected.value;
        var d := Displayed();
        if i < |d| {
          var found := FindById(tasks, d[i].id);
          if found.Some? {
            var k := found.value;
            tasks := tasks[..k] + tasks[k + 1..];
          }
          var now := Displayed();
          selected := ClampAfterDelete(i, |now|);
        }
      }
    }
  }
}

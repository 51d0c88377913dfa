/**
 * The stand-alone command-line front end: `todo add <words…>`, `todo list` and
 * `todo done <id>` over a list of simple tasks kept in a task file. The file's
 * content is the `tasks` field of `TaskFile`; reading and writing it are not
 * modelled, and what the commands print is returned as lines of text.
 */
module Cli {
  import opened Wrappers
  import opened Strings
  import Ids

  datatype Task = Task(id: nat, description: string, completed: bool)

  datatype Command = Add(words: seq<string>) | List | Done(id: nat)

  function IdsOf(tasks: seq<Task>): (ids: seq<nat>)
    ensures |ids| == |tasks|
    ensures forall i :: 0 <= i < |tasks| ==> ids[i] == tasks[i].id
  {
    seq(|tasks|, i requires 0 <= i < |tasks| => tasks[i].id)
  }

  /** The position of the first task with `id` (`iter_mut().find`). */
  function FindById(tasks: seq<Task>, id: nat): (r: Option<nat>)
    ensures r.Some? ==> r.value < |tasks| && tasks[r.value].id == id
    ensures r.Some? ==> forall j :: 0 <= j < r.value ==> tasks[j].id != id
    ensures r.None? <==> forall j :: 0 <= j < |tasks| ==> tasks[j].id != id
  {
    Ids.FirstIndexOf(IdsOf(tasks), id)
  }

  /** The id `add_task` gives: one more than the largest id, 1 for an empty list. */
  function NextIdAmong(tasks: seq<Task>): (r: nat)
    ensures forall j :: 0 <= j < |tasks| ==> tasks[j].id < r
    ensures |tasks| == 0 ==> r == 1
  {
    Ids.NextId(IdsOf(tasks))
  }

  /** Adding with the next id keeps distinct ids distinct. */
  lemma AddKeepsIdsDistinct(tasks: seq<Task>, description: string)
    requires Ids.Distinct(IdsOf(tasks))
    ensures Ids.Distinct(IdsOf(tasks + [Task(NextIdAmong(tasks), description, false)]))
  {
    var t := Task(NextIdAmong(tasks), description, false);
    Ids.NextIdKeepsDistinct(IdsOf(tasks));
    assert IdsOf(tasks + [t]) == IdsOf(tasks) + [Ids.NextId(IdsOf(tasks))];
  }

  /** The description `todo add` stores: the argument words joined by single spaces. */
  function AddDescription(words: seq<string>): string {
    Join(words, " ")
  }

  /** Words without whitespace in them are recovered from the stored description. */
  lemma AddDescriptionKeepsWords(words: seq<string>)
    requires forall k :: 0 <= k < |words| ==> IsWord(words[k])
    ensures SplitWhitespace(AddDescription(words)) == words
  {
    SplitJoinRoundTrip(words);
  }

  /**
   * The list after `complete_task` with `id`: the first task with that id is
   * completed, every other task is as it was; with no such task the list is unchanged.
   */
  function MarkCompleted(tasks: seq<Task>, id: nat): (r: seq<Task>)
    ensures |r| == |tasks| && IdsOf(r) == IdsOf(tasks)
    ensures FindById(tasks, id).None? ==> r == tasks
    ensures forall j :: 0 <= j < |tasks| && FindById(tasks, id) != Some(j) ==> r[j] == tasks[j]
    ensures FindById(tasks, id).Some? ==>
      r[FindById(tasks, id).value] == tasks[FindById(tasks, id).value].(completed := true)
  {
    match FindById(tasks, id)
    case None => tasks
    case Some(k) => tasks[k := tasks[k].(completed := true)]
  }

  /** Completing the same id twice is completing it once. */
  lemma MarkCompletedIdempotent(tasks: seq<Task>, id: nat)
    ensures MarkCompleted(MarkCompleted(tasks, id), id) == MarkCompleted(tasks, id)
  {
    var once := MarkCompleted(tasks, id);
    assert FindById(once, id) == FindById(tasks, id) by {
      assert IdsOf(once) == IdsOf(tasks);
    }
  }

  // ---------------------------------------------------------------------------
  // Listing

  function StatusMark(completed: bool): string {
    if completed then "[x]" else "[ ]"
  }

  /** The line `list_tasks` prints for a task: status mark, id, ` - `, description. */
  function TaskLine(t: Task): string {
    StatusMark(t.completed) + " " + Decimal(t.id) + " - " + t.description
  }

  /** What `list_tasks` prints: a notice for an empty list, else one line per task, in order. */
  function Listing(tasks: seq<Task>): seq<string> {
    if |tasks| == 0 then ["No tasks yet!"]
    else seq(|tasks|, i requires 0 <= i < |tasks| => TaskLine(tasks[i]))
  }

  /** `list_tasks`: the printing loop, collecting the lines it prints. */
  method ListTasks(tasks: seq<Task>) returns (lines: seq<string>)
    ensures |tasks| == 0 ==> lines == ["No tasks yet!"]
    ensures |tasks| > 0 ==> |lines| == |tasks|
    ensures forall i :: 0 <= i < |tasks| ==> lines[i] == TaskLine(tasks[i])
    ensures lines == Listing(tasks)
  {
    if |tasks| == 0 {
      lines := ["No tasks yet!"];
    } else {
      lines := [];
      for i := 0 to |tasks|
        invariant |lines| == i
        invariant forall j :: 0 <= j < i ==> lines[j] == TaskLine(tasks[j])
      {
        var status := if tasks[i].completed then "[x]" else "[ ]";
        lines := lines + [status + " " + Decimal(tasks[i].id) + " - " + tasks[i].description];
      }
    }
  }

  /** Length of the run of decimal digits at the start of `s`. */
  function DigitRun(s: string): (n: nat)
    ensures n <= |s|
    ensures forall i :: 0 <= i < n ==> IsDigit(s[i])
  {
    if s == [] || !IsDigit(s[0]) then 0 else 1 + DigitRun(s[1..])
  }

  /** Reads a listing line back into the task it was printed for. */
  function ParseLine(line: string): Option<Task> {
    if |line| < 4 || line[3] != ' ' || (line[..3] != "[x]" && line[..3] != "[ ]") then None
    else
      var rest := line[4..];
      var n := DigitRun(rest);
      if n == 0 || !StartsWith(rest[n..], " - ") then None
      else Some(Task(DecimalValue(rest[..n]), rest[n + 3..], line[..3] == "[x]"))
  }

  lemma {:induction false} DigitRunOfDecimal(d: string, t: string)
    requires forall i :: 0 <= i < |d| ==> IsDigit(d[i])
    requires t != [] && !IsDigit(t[0])
    ensures DigitRun(d + t) == |d|
    decreases |d|
  {
    if d == [] {
      assert d + t == t;
    } else {
      assert (d + t)[1..] == d[1..] + t;
      DigitRunOfDecimal(d[1..], t);
    }
  }

  /** Each listed line determines its task: id, description and status are all recoverable. */
  lemma ParseTaskLine(t: Task)
    ensures ParseLine(TaskLine(t)) == Some(t)
  {
    var line, mark, digits := TaskLine(t), StatusMark(t.completed), Decimal(t.id);
    assert line == mark + " " + digits + " - " + t.description;
    assert line[..3] == mark && line[3] == ' ';
    var rest := line[4..];
    assert rest == digits + (" - " + t.description);
    DigitRunOfDecimal(digits, " - " + t.description);
    assert rest[..|digits|] == digits;
    assert rest[|digits|..] == " - " + t.description;
    assert rest[|digits| + 3..] == t.description;
    DecimalRoundTrip(t.id);
  }

  /** The listing of a non-empty list determines the list. */
  lemma ListingDeterminesTasks(tasks: seq<Task>)
    requires |tasks| > 0
    ensures |Listing(tasks)| == |tasks|
    ensures forall i :: 0 <= i < |tasks| ==> ParseLine(Listing(tasks)[i]) == Some(tasks[i])
  {
    forall i | 0 <= i < |tasks| ensures ParseLine(Listing(tasks)[i]) == Some(tasks[i]) {
      ParseTaskLine(tasks[i]);
    }
  }

  // ---------------------------------------------------------------------------
  // Commands

  class TaskFile {
    /** The list stored in the task file. */
    var tasks: seq<Task>

    constructor (stored: seq<Task>)
      ensures tasks == stored
    {
      tasks := stored;
    }

    /** `add_task`: appends a task with the next id, not completed, and reports its id. */
    method AddTask(description: string) returns (message: string)
      modifies this
      ensures tasks == old(tasks) + [Task(NextIdAmong(old(tasks)), description, false)]
      ensures message == "Added task " + Decimal(NextIdAmong(old(tasks))) + "."
    {
      var newId := NextIdAmong(tasks);
      var task := Task(newId, description, false);
      tasks := tasks + [task];
      message := "Added task " + Decimal(newId) + ".";
    }

    /**
     * `complete_task`: completes the first task with `id` and saves; with no such
     * task nothing is saved and a not-found message is reported.
     */
    method CompleteTask(id: nat) returns (saved: bool, message: string)
      modifies this
      ensures saved <==> exists j :: 0 <= j < |old(tasks)| && old(tasks)[j].id == id
      ensures tasks == MarkCompleted(old(tasks), id)
      ensures message == if saved then "Completed task " + Decimal(id) + "."
                         else "Task with ID " + Decimal(id) + " not found."
    {
      var found := FindById(tasks, id);
      if found.Some? {
        var k := found.value;
        tasks := tasks[k := tasks[k].(completed := true)];
        saved := true;
        message := "Completed task " + Decimal(id) + ".";
      } else {
        saved := false;
        message := "Task with ID " + Decimal(id) + " not found.";
      }
    }

    /** `main`: runs one command and returns what it prints. */
    method Run(cmd: Command) returns (output: seq<string>)
      modifies this
      ensures cmd.Add? ==>
        && tasks == old(tasks) + [Task(NextIdAmong(old(tasks)), AddDescription(cmd.words), false)]
        && output == ["Added task " + Decimal(NextIdAmong(old(tasks))) + "."]
      ensures cmd.List? ==> tasks == old(tasks) && output == Listing(old(tasks))
      ensures cmd.Done? ==> tasks == MarkCompleted(old(tasks), cmd.id) && |output| == 1
    {
      match cmd
      case Add(words) =>
        var message := AddTask(AddDescription(words));
        output := [message];
      case List =>
        output := ListTasks(tasks);
      case Done(id) =>
        var _, message := CompleteTask(id);
        output := [message];
    }
  }
}

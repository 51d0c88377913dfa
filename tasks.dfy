/**
 * The task record of the interactive tracker, its priority cycle, the id scope of
 * a list of tasks and the tags taken from the text a task is created from.
 */
module Tasks {
  import opened Wrappers
  import opened Strings
  import opened Sequences
  import Ids

  datatype Priority = Low | Medium | High

  /**
   * A task. `subTasks` has the same shape as the top level; only one level of it
   * is ever consulted or extended.
   */
  datatype Task = Task(
    id: nat,
    description: string,
    completed: bool,
    priority: Priority,
    dueDate: Option<string>,
    subTasks: seq<Task>,
    tags: seq<string>)

  /** Priority cycling, Low → Medium → High → Low. */
  function NextPriority(p: Priority): (r: Priority)
    ensures r != p
  {
    match p
    case Low => Medium
    case Medium => High
    case High => Low
  }

  /** Three steps of the cycle come back to where they started. */
  lemma PriorityCycleCloses(p: Priority)
    ensures NextPriority(NextPriority(NextPriority(p))) == p
    ensures NextPriority(p) != p && NextPriority(NextPriority(p)) != p
  {
  }

  /** The ids of a list of sibling tasks, in order. */
  function IdsOf(tasks: seq<Task>): (ids: seq<nat>)
    ensures |ids| == |tasks|
    ensures forall i :: 0 <= i < |tasks| ==> ids[i] == tasks[i].id
  {
    seq(|tasks|, i requires 0 <= i < |tasks| => tasks[i].id)
  }

  /** The position of the first task with `id` (`iter().find` / `iter().position` by id). */
  function FindById(tasks: seq<Task>, id: nat): (r: Option<nat>)
    ensures r.Some? ==> r.value < |tasks| && tasks[r.value].id == id
    ensures r.Some? ==> forall j :: 0 <= j < r.value ==> tasks[j].id != id
    ensures r.None? <==> forall j :: 0 <= j < |tasks| ==> tasks[j].id != id
  {
    Ids.FirstIndexOf(IdsOf(tasks), id)
  }

  /** The id a task added beside `siblings` receives. */
  function NextIdAmong(siblings: seq<Task>): (r: nat)
    ensures forall j :: 0 <= j < |siblings| ==> siblings[j].id < r
    ensures |siblings| == 0 ==> r == 1
  {
    Ids.NextId(IdsOf(siblings))
  }

  /** Appending a task adds its id at the end of the ids. */
  lemma AppendedIds(tasks: seq<Task>, t: Task)
    ensures IdsOf(tasks + [t]) == IdsOf(tasks) + [t.id]
  {
  }

  /**
   * A task added with the next id of its scope, top level or one parent's
   * subtasks, keeps the ids of that scope pairwise distinct.
   */
  lemma AddKeepsIdsDistinct(siblings: seq<Task>, t: Task)
    requires Ids.Distinct(IdsOf(siblings)) && t.id == NextIdAmong(siblings)
    ensures Ids.Distinct(IdsOf(siblings + [t]))
  {
    AppendedIds(siblings, t);
    Ids.NextIdKeepsDistinct(IdsOf(siblings));
  }

  // ---------------------------------------------------------------------------
  // Tags

  /** A tag is a word that starts with `#`. */
  predicate IsTag(w: string) {
    StartsWith(w, "#")
  }

  /** The words that start with `#`, in order, duplicates kept. */
  function HashWords(words: seq<string>): (r: seq<string>)
    ensures IsSubsequence(r, words)
    ensures forall k :: 0 <= k < |r| ==> IsTag(r[k])
    ensures forall w :: IsTag(w) ==> multiset(r)[w] == multiset(words)[w]
  {
    if words == [] then []
    else
      var rest := HashWords(words[1..]);
      assert words == [words[0]] + words[1..];
      if IsTag(words[0]) then [words[0]] + rest else rest
  }

  /** The tags of a task created from `input`: the whitespace-separated words that start with `#`. */
  function Tags(input: string): seq<string> {
    HashWords(SplitWhitespace(input))
  }

  /** The tags of words joined by spaces are those of the words that start with `#`. */
  lemma TagsOfJoinedWords(words: seq<string>)
    requires forall k :: 0 <= k < |words| ==> IsWord(words[k])
    ensures Tags(Join(words, " ")) == HashWords(words)
  {
    SplitJoinRoundTrip(words);
  }

  /** Tag extraction on `buy milk #errand #urgent`: two tags in order, and the description stays the raw input. */
  lemma TagsExample()
    ensures Tags("buy milk #errand #urgent") == ["#errand", "#urgent"]
    ensures NewTask(1, "buy milk #errand #urgent", None).description == "buy milk #errand #urgent"
  {
    var words := ExampleWords();
    TagsOfJoinedWords(words);
    ExampleHashWords();
  }

  function ExampleWords(): (words: seq<string>)
    ensures Join(words, " ") == "buy milk #errand #urgent"
    ensures forall k :: 0 <= k < |words| ==> IsWord(words[k])
  {
    var words := ["buy", "milk", "#errand", "#urgent"];
    assert Join(words[3..], " ") == "#urgent";
    assert Join(words[2..], " ") == "#errand #urgent" by {
      assert words[2..][1..] == words[3..];
    }
    assert Join(words[1..], " ") == "milk #errand #urgent" by {
      assert words[1..][1..] == words[2..];
    }
    assert IsWord("buy") && IsWord("milk") && IsWord("#errand") && IsWord("#urgent");
    words
  }

  lemma ExampleHashWords()
    ensures HashWords(ExampleWords()) == ["#errand", "#urgent"]
  {
    var words := ExampleWords();
    assert words == ["buy", "milk", "#errand", "#urgent"];
    assert !IsTag(words[0]) by { assert words[0][..1] == "b"; }
    assert !IsTag(words[1]) by { assert words[1][..1] == "m"; }
    assert IsTag(words[2]) by { assert words[2][..1] == "#"; }
    assert IsTag(words[3]) by { assert words[3][..1] == "#"; }
    var h3 := HashWords(words[3..]);
    assert h3 == [words[3]] by {
      assert words[3..][0] == words[3];
      assert words[3..][1..] == [];
    }
    assert HashWords(words[2..]) == [words[2], words[3]] by {
      assert words[2..][0] == words[2];
      assert words[2..][1..] == words[3..];
    }
    assert HashWords(words[1..]) == [words[2], words[3]] by {
      assert words[1..][0] == words[1];
      assert words[1..][1..] == words[2..];
    }
    assert HashWords(words) == [words[2], words[3]];
  }

  /**
   * The task `add_task` builds from the input buffer: the given id, the raw input
   * as description, not completed, Medium priority, the parsed due date, no
   * subtasks and the tags of the input.
   */
  function NewTask(id: nat, input: string, parsedDue: Option<string>): Task {
    Task(id, input, false, Medium, parsedDue, [], Tags(input))
  }
}

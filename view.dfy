/**
 * The derived view of the task list: the search predicate, `filter_tasks` and
 * `get_displayed_tasks`. Both return a fresh list and leave the store alone.
 */
module View {
  import opened Wrappers
  import opened Strings
  import opened Sequences
  import opened Tasks

  datatype AppMode = Normal | Insert | DateInput | Search

  /** The priority keywords; any other query matches no priority. `q` is already lower-cased. */
  predicate PriorityKeywordMatches(q: string, p: Priority) {
    if q == "high" || q == "h" then p == High
    else if q == "medium" || q == "med" || q == "m" then p == Medium
    else if q == "low" || q == "l" then p == Low
    else false
  }

  /** The status keywords; any other query matches no status. */
  predicate StatusKeywordMatches(q: string, completed: bool) {
    if q == "completed" || q == "done" || q == "finished" then completed
    else if q == "incomplete" || q == "pending" || q == "todo" then !completed
    else false
  }

  /** Some tag, lower-cased, contains `q`. */
  predicate AnyTagContains(tags: seq<string>, q: string) {
    exists k :: 0 <= k < |tags| && Contains(Lowercase(tags[k]), q)
  }

  /** A subtask matches on its description or its tags only. */
  predicate SubtaskMatches(sub: Task, q: string) {
    Contains(Lowercase(sub.description), q) || AnyTagContains(sub.tags, q)
  }

  /**
   * The search predicate for the lower-cased query `q`: description, tags,
   * priority keyword, status keyword, due date (compared as stored, not
   * lower-cased) or one of the subtasks.
   */
  predicate Matches(t: Task, q: string) {
    || Contains(Lowercase(t.description), q)
    || AnyTagContains(t.tags, q)
    || PriorityKeywordMatches(q, t.priority)
    || StatusKeywordMatches(q, t.completed)
    || (t.dueDate.Some? && Contains(t.dueDate.value, q))
    || exists k :: 0 <= k < |t.subTasks| && SubtaskMatches(t.subTasks[k], q)
  }

  /** The tasks that match `q`, in their order, unmodified. */
  function KeepMatching(tasks: seq<Task>, q: string): (r: seq<Task>)
    ensures IsSubsequence(r, tasks)
    ensures forall i :: 0 <= i < |r| ==> Matches(r[i], q)
    ensures forall i :: 0 <= i < |tasks| && Matches(tasks[i], q) ==> tasks[i] in r
    ensures forall t {:trigger multiset(r)[t]} :: Matches(t, q) ==> multiset(r)[t] == multiset(tasks)[t]
  {
    if tasks == [] then []
    else
      var rest := KeepMatching(tasks[1..], q);
      assert tasks == [tasks[0]] + tasks[1..];
      assert forall i :: 1 <= i < |tasks| ==> tasks[i] == tasks[1..][i - 1];
      if Matches(tasks[0], q) then [tasks[0]] + rest else rest
  }

  /** Filtering a concatenation filters each part: the filter keeps order and looks at each task alone. */
  lemma {:induction false} KeepMatchingAppend(a: seq<Task>, b: seq<Task>, q: string)
    ensures KeepMatching(a + b, q) == KeepMatching(a, q) + KeepMatching(b, q)
    decreases |a|
  {
    if a == [] {
      assert a + b == b;
    } else {
      assert (a + b)[0] == a[0];
      assert (a + b)[1..] == a[1..] + b;
      KeepMatchingAppend(a[1..], b, q);
    }
  }

  /** A list whose every task matches is kept whole. */
  lemma {:induction false} KeepMatchingAllMatch(tasks: seq<Task>, q: string)
    requires forall i :: 0 <= i < |tasks| ==> Matches(tasks[i], q)
    ensures KeepMatching(tasks, q) == tasks
    decreases |tasks|
  {
    if tasks != [] {
      KeepMatchingAllMatch(tasks[1..], q);
    }
  }

  /** `filter_tasks`: the whole list for an empty query, else the tasks matching the lower-cased query. */
  function FilterTasks(tasks: seq<Task>, search: string): (r: seq<Task>)
    ensures search == "" ==> r == tasks
    ensures IsSubsequence(r, tasks)
    ensures search != "" ==> forall i :: 0 <= i < |r| ==> Matches(r[i], Lowercase(search))
    ensures forall i :: 0 <= i < |tasks| && (search == "" || Matches(tasks[i], Lowercase(search))) ==> tasks[i] in r
    ensures search != "" ==> forall t {:trigger multiset(r)[t]} :: Matches(t, Lowercase(search)) ==> multiset(r)[t] == multiset(tasks)[t]
  {
    if search == "" then
      SubsequenceReflexive(tasks);
      tasks
    else
      KeepMatching(tasks, Lowercase(search))
  }

  /** Filtering an already filtered list changes nothing. */
  lemma FilterTasksIdempotent(tasks: seq<Task>, search: string)
    ensures FilterTasks(FilterTasks(tasks, search), search) == FilterTasks(tasks, search)
  {
    if search != "" {
      KeepMatchingAllMatch(FilterTasks(tasks, search), Lowercase(search));
    }
  }

  /**
   * `get_displayed_tasks`: the filtered list in Search mode, the whole list in
   * every other mode, and the whole list whenever the search text is empty.
   */
  function DisplayedTasks(tasks: seq<Task>, mode: AppMode, search: string): (r: seq<Task>)
    ensures mode != Search || search == "" ==> r == tasks
    ensures mode == Search ==> r == FilterTasks(tasks, search)
    ensures IsSubsequence(r, tasks)
  {
    if mode == Search && search != "" then FilterTasks(tasks, search)
    else
      SubsequenceReflexive(tasks);
      tasks
  }

  /** Every displayed task is a task of the store, so its id finds a task of the store. */
  lemma DisplayedIdResolves(tasks: seq<Task>, mode: AppMode, search: string, i: nat)
    requires i < |DisplayedTasks(tasks, mode, search)|
    ensures DisplayedTasks(tasks, mode, search)[i] in tasks
    ensures FindById(tasks, DisplayedTasks(tasks, mode, search)[i].id).Some?
  {
    var d := DisplayedTasks(tasks, mode, search);
    SubsequenceMembers(d, tasks, d[i]);
    var j :| 0 <= j < |tasks| && tasks[j] == d[i];
  }

  /** The displayed list is never longer than the store. */
  lemma DisplayedNoLonger(tasks: seq<Task>, mode: AppMode, search: string)
    ensures |DisplayedTasks(tasks, mode, search)| <= |tasks|
  {
    SubsequenceLength(DisplayedTasks(tasks, mode, search), tasks);
  }

  /** Searching `Pay rent` (High, open) and `Read book` (Low, done) for `high`, `done` and `rent`. */
  lemma SearchExample()
    ensures FilterTasks([PayRent(), ReadBook()], "high") == [PayRent()]
    ensures FilterTasks([PayRent(), ReadBook()], "done") == [ReadBook()]
    ensures FilterTasks([PayRent(), ReadBook()], "rent") == [PayRent()]
  {
    SearchHigh();
    SearchDone();
    SearchRent();
  }

  lemma SearchHigh()
    ensures FilterTasks([PayRent(), ReadBook()], "high") == [PayRent()]
  {
    LowercaseWithoutCapitals("high");
    MatchFacts();
    FilterTwo(PayRent(), ReadBook(), "high");
  }

  lemma SearchDone()
    ensures FilterTasks([PayRent(), ReadBook()], "done") == [ReadBook()]
  {
    LowercaseWithoutCapitals("done");
    MatchFacts();
    FilterTwo(PayRent(), ReadBook(), "done");
  }

  lemma SearchRent()
    ensures FilterTasks([PayRent(), ReadBook()], "rent") == [PayRent()]
  {
    LowercaseWithoutCapitals("rent");
    MatchFacts();
    FilterTwo(PayRent(), ReadBook(), "rent");
  }

  lemma MatchFacts()
    ensures Matches(PayRent(), "high") && !Matches(ReadBook(), "high")
    ensures !Matches(PayRent(), "done") && Matches(ReadBook(), "done")
    ensures Matches(PayRent(), "rent") && !Matches(ReadBook(), "rent")
  {
    PayRentIsHigh();
    ReadBookNotHigh();
    PayRentNotDone();
    ReadBookIsDone();
    PayRentHasRent();
    ReadBookNotRent();
  }

  lemma PayRentIsHigh() ensures Matches(PayRent(), "high") {
    PlainTaskMatches(PayRent(), "high");
  }

  lemma ReadBookIsDone() ensures Matches(ReadBook(), "done") {
    PlainTaskMatches(ReadBook(), "done");
  }

  lemma ReadBookNotHigh() ensures !Matches(ReadBook(), "high") {
    ReadBookLacks("high", 'h');
  }

  lemma ReadBookNotRent() ensures !Matches(ReadBook(), "rent") {
    ReadBookLacks("rent", 'n');
  }

  lemma PayRentNotDone() ensures !Matches(PayRent(), "done") {
    PayRentLacks("done", 'd');
  }

  /** A task without tags, due date or subtasks matches on description, priority or status. */
  lemma PlainTaskMatches(t: Task, q: string)
    requires t.tags == [] && t.subTasks == [] && t.dueDate.None?
    ensures Matches(t, q) <==>
      Contains(Lowercase(t.description), q) || PriorityKeywordMatches(q, t.priority)
      || StatusKeywordMatches(q, t.completed)
  {
  }

  lemma PayRentLacks(q: string, c: char)
    requires c in q && c !in "pay rent"
    requires !PriorityKeywordMatches(q, High) && !StatusKeywordMatches(q, false)
    ensures !Matches(PayRent(), q)
  {
    LowerPayRent();
    NotContained(Lowercase(PayRent().description), "pay rent", q, c);
    PlainTaskMatches(PayRent(), q);
  }

  lemma ReadBookLacks(q: string, c: char)
    requires c in q && c !in "read book"
    requires !PriorityKeywordMatches(q, Low) && !StatusKeywordMatches(q, true)
    ensures !Matches(ReadBook(), q)
  {
    LowerReadBook();
    NotContained(Lowercase(ReadBook().description), "read book", q, c);
    PlainTaskMatches(ReadBook(), q);
  }

  lemma PayRentHasRent()
    ensures Matches(PayRent(), "rent")
  {
    LowerPayRent();
    RentInPayRent(Lowercase(PayRent().description));
    PlainTaskMatches(PayRent(), "rent");
  }

  /** A query holding a character the text lacks is not contained in it. */
  lemma NotContained(s: string, text: string, q: string, c: char)
    requires s == text && c in q && c !in text
    ensures !Contains(s, q)
  {
    if Contains(text, q) {
      ContainsOnlyItsCharacters(text, q, c);
    }
  }

  lemma RentInPayRent(s: string)
    requires s == "pay rent"
    ensures Contains(s, "rent")
  {
    assert StartsWith(s[4..], "rent");
    ContainsIffOccurs(s, "rent");
  }

  lemma LowerPayRent()
    ensures Lowercase(PayRent().description) == "pay rent"
  {
    CapitalisedWord('P', "ay rent");
  }

  lemma LowerReadBook()
    ensures Lowercase(ReadBook().description) == "read book"
  {
    CapitalisedWord('R', "ead book");
  }

  lemma CapitalisedWord(c: char, rest: string)
    requires 'A' <= c <= 'Z'
    requires forall i :: 0 <= i < |rest| ==> !('A' <= rest[i] <= 'Z')
    ensures Lowercase([c] + rest) == [LowerChar(c)] + rest
  {
    LowercaseWithoutCapitals(rest);
    assert ([c] + rest)[1..] == rest;
  }

  lemma FilterTwo(a: Task, b: Task, q: string)
    requires q != "" && Lowercase(q) == q
    ensures FilterTasks([a, b], q)
      == (if Matches(a, q) then [a] else []) + (if Matches(b, q) then [b] else [])
  {
    assert [a, b][1..] == [b];
    assert [b][1..] == [];
    assert KeepMatching([b], q) == if Matches(b, q) then [b] else [];
  }

  function PayRent(): Task {
    Task(1, "Pay rent", false, High, None, [], [])
  }

  function ReadBook(): Task {
    Task(2, "Read book", true, Low, None, [], [])
  }
}

/** The interactive menu loop: one typed menu choice dispatched to a store operation,
    with the lines the loop prints as output. The lines a user types after the menu
    choice are gathered in an `Entry`. */
module Session {
  import opened Wrappers
  import opened Tasks
  import opened TaskStore

  /** The five menu items and everything else. */
  datatype Choice = ChooseAdd | ChooseView | ChooseUpdate | ChooseDelete | ChooseExit | Unrecognised

  /** The answers an operation may prompt for. `categoryIndex` and `id` are the typed
      lines after `toIntOrNull`; `createdAt` is the clock reading taken when a task is made. */
  datatype Entry = Entry(
    title: string,
    description: string,
    categoryIndex: Option<int>,
    id: Option<int>,
    status: string,
    createdAt: string)

  /** The store after one menu round, what it printed, and whether the loop goes on. */
  datatype StepResult = StepResult(store: Store, output: seq<string>, running: bool)

  /** The store after a whole session, everything printed, and whether Exit was chosen. */
  datatype Run = Run(store: Store, transcript: seq<string>, exited: bool)

  /** The menu `when`: exact matches of "1" to "5", anything else is unrecognised. */
  function Dispatch(line: string): (c: Choice)
    ensures c != Unrecognised <==> line in {"1", "2", "3", "4", "5"}
    ensures c != Unrecognised ==> Key(c) == line
  {
    if line == "1" then ChooseAdd
    else if line == "2" then ChooseView
    else if line == "3" then ChooseUpdate
    else if line == "4" then ChooseDelete
    else if line == "5" then ChooseExit
    else Unrecognised
  }

  /** The line that selects a menu item. */
  function Key(c: Choice): string
    requires c != Unrecognised
  {
    match c
    case ChooseAdd => "1"
    case ChooseView => "2"
    case ChooseUpdate => "3"
    case ChooseDelete => "4"
    case ChooseExit => "5"
  }

  /** What the menu loop prints for an outcome. */
  function Message(o: Outcome): string {
    match o
    case Added => "Task added."
    case Updated => "Task updated."
    case Deleted => "Task deleted."
    case InvalidId => "Invalid ID"
    case NotFound => "Task not found."
    case InvalidCategory => "Invalid category."
  }

  /** One round of the menu loop. Only "5" stops it; view, exit and unrecognised
      choices leave the store alone; the id counter never goes back. */
  function Step(s: Store, line: string, e: Entry): (r: StepResult)
    ensures !r.running <==> Dispatch(line) == ChooseExit
    ensures Dispatch(line) in {ChooseView, ChooseExit, Unrecognised} ==> r.store == s
    ensures Dispatch(line) == Unrecognised ==> r.output == ["Invalid option. Try again."]
    ensures Dispatch(line) == ChooseAdd ==>
      && r.store == Add(s, e.title, e.description, e.categoryIndex, e.createdAt).0
      && r.output == [if ValidIndex(e.categoryIndex) then "Task added." else "Invalid category."]
    ensures Dispatch(line) == ChooseView && |s.tasks| == 0 ==> r.output == ["No tasks available."]
    ensures Dispatch(line) == ChooseView && |s.tasks| > 0 ==>
      && |r.output| == |s.tasks|
      && forall i :: 0 <= i < |s.tasks| ==> r.output[i] == s.tasks[i].Render()
    ensures Dispatch(line) == ChooseUpdate ==>
      && r.store == Update(s, e.id, e.title, e.description, e.categoryIndex, e.status).0
      && r.output == [if e.id.None? then "Invalid ID"
                      else if !HasId(s.tasks, e.id.value) then "Task not found."
                      else if !ValidIndex(e.categoryIndex) then "Invalid category."
                      else "Task updated."]
    ensures Dispatch(line) == ChooseDelete ==>
      && r.store == Delete(s, e.id).0
      && r.output == [if e.id.None? then "Invalid ID"
                      else if HasId(s.tasks, e.id.value) then "Task deleted."
                      else "Task not found."]
    ensures Dispatch(line) == ChooseExit ==> r.output == ["Goodbye!"]
    ensures s.nextId <= r.store.nextId <= s.nextId + 1
    ensures r.store.nextId == s.nextId + 1 <==>
      Dispatch(line) == ChooseAdd && ValidIndex(e.categoryIndex)
    ensures |r.output| > 0
  {
    match Dispatch(line)
    case ChooseAdd =>
      var (s', o) := Add(s, e.title, e.description, e.categoryIndex, e.createdAt);
      StepResult(s', [Message(o)], true)
    case ChooseView =>
      var lines := match ViewTasks(s)
        case NoTasks => ["No tasks available."]
        case Listing(rendered) => rendered;
      StepResult(s, lines, true)
    case ChooseUpdate =>
      var (s', o) := Update(s, e.id, e.title, e.description, e.categoryIndex, e.status);
      StepResult(s', [Message(o)], true)
    case ChooseDelete =>
      var (s', o) := Delete(s, e.id);
      StepResult(s', [Message(o)], true)
    case ChooseExit =>
      StepResult(s, ["Goodbye!"], false)
    case Unrecognised =>
      StepResult(s, ["Invalid option. Try again."], true)
  }

  /** The menu loop over a script of typed choices and answers; it stops at the first
      "5" and ignores whatever follows. */
  function RunScript(s: Store, script: seq<(string, Entry)>): (r: Run)
    ensures s.nextId <= r.store.nextId
    ensures |script| > 0 ==> |r.transcript| > 0
    ensures r.exited ==> |r.transcript| > 0 && r.transcript[|r.transcript| - 1] == "Goodbye!"
    ensures !r.exited ==> forall k :: 0 <= k < |r.transcript| ==> r.transcript[k] != "Goodbye!"
    decreases |script|
  {
    if |script| == 0 then Run(s, [], false)
    else
      var r := Step(s, script[0].0, script[0].1);
      if !r.running then Run(r.store, r.output, true)
      else
        var rest := RunScript(r.store, script[1..]);
        Run(rest.store, r.output + rest.transcript, rest.exited)
  }

  /** The ids handed to new tasks during a session, in the order they were handed out. */
  function IssuedIds(s: Store, script: seq<(string, Entry)>): seq<int>
    decreases |script|
  {
    if |script| == 0 then []
    else
      var (line, e) := script[0];
      var r := Step(s, line, e);
      var issued :=
        if Dispatch(line) == ChooseAdd && Add(s, e.title, e.description, e.categoryIndex, e.createdAt).1 == Added
        then [s.nextId] else [];
      if !r.running then issued else issued + IssuedIds(r.store, script[1..])
  }

  /** The integers from `lo` up to but excluding `hi`. */
  function Range(lo: int, hi: int): (r: seq<int>)
    requires lo <= hi
    ensures |r| == hi - lo
    ensures forall k :: 0 <= k < |r| ==> r[k] == lo + k
  {
    seq(hi - lo, k => lo + k)
  }

  /** Different outcomes print different messages, and none of them is the farewell. */
  lemma MessagesDistinct(o1: Outcome, o2: Outcome)
    ensures Message(o1) == Message(o2) ==> o1 == o2
    ensures Message(o1) != "Goodbye!"
  {
  }

  /** Each menu item is selected by its own key, and every key selects that item. */
  lemma DispatchKeyRoundTrip(c: Choice, line: string)
    ensures c != Unrecognised ==> Dispatch(Key(c)) == c
    ensures Dispatch(line) != Unrecognised ==> Key(Dispatch(line)) == line
  {
  }

  /** Every menu round keeps the store invariant. */
  lemma StepPreservesValid(s: Store, line: string, e: Entry)
    requires Valid(s)
    ensures Valid(Step(s, line, e).store)
  {
    match Dispatch(line)
    case ChooseAdd => AddPreservesValid(s, e.title, e.description, e.categoryIndex, e.createdAt);
    case ChooseUpdate => UpdatePreservesValid(s, e.id, e.title, e.description, e.categoryIndex, e.status);
    case ChooseDelete => DeletePreservesValid(s, e.id);
    case ChooseView =>
    case ChooseExit =>
    case Unrecognised =>
  }

  /** A whole session keeps the store invariant. */
  lemma {:induction false} RunPreservesValid(s: Store, script: seq<(string, Entry)>)
    requires Valid(s)
    ensures Valid(RunScript(s, script).store)
    decreases |script|
  {
    if |script| > 0 {
      var r := Step(s, script[0].0, script[0].1);
      StepPreservesValid(s, script[0].0, script[0].1);
      if r.running {
        RunPreservesValid(r.store, script[1..]);
      }
    }
  }

  /** The loop ends exactly when some round chose "5"; bad input never ends it. */
  lemma {:induction false} RunExitsIffChosen(s: Store, script: seq<(string, Entry)>)
    ensures RunScript(s, script).exited <==> exists i :: 0 <= i < |script| && Dispatch(script[i].0) == ChooseExit
    decreases |script|
  {
    if |script| > 0 {
      var r := Step(s, script[0].0, script[0].1);
      if r.running {
        RunExitsIffChosen(r.store, script[1..]);
        var tail := script[1..];
        if exists i :: 0 <= i < |script| && Dispatch(script[i].0) == ChooseExit {
          var i :| 0 <= i < |script| && Dispatch(script[i].0) == ChooseExit;
          assert i > 0 && tail[i - 1] == script[i];
        }
        if exists i :: 0 <= i < |tail| && Dispatch(tail[i].0) == ChooseExit {
          var i :| 0 <= i < |tail| && Dispatch(tail[i].0) == ChooseExit;
          assert script[i + 1] == tail[i];
        }
      }
    }
  }

  /** The ids handed out during a session are consecutive, from the counter at the
      start to just below the counter at the end: no gaps, no repeats, never reused. */
  lemma {:induction false} IssuedIdsConsecutive(s: Store, script: seq<(string, Entry)>)
    ensures s.nextId <= RunScript(s, script).store.nextId
    ensures IssuedIds(s, script) == Range(s.nextId, RunScript(s, script).store.nextId)
    decreases |script|
  {
    if |script| > 0 {
      var r := Step(s, script[0].0, script[0].1);
      if r.running {
        IssuedIdsConsecutive(r.store, script[1..]);
        var hi := RunScript(s, script).store.nextId;
        if r.store.nextId == s.nextId + 1 {
          assert [s.nextId] + Range(s.nextId + 1, hi) == Range(s.nextId, hi);
        }
      }
    }
  }

  /** From a fresh start, the k-th task ever created gets id k + 1, whatever else happened
      in between. */
  lemma SessionIdsCountFromOne(script: seq<(string, Entry)>)
    ensures var ids := IssuedIds(Init, script);
      && RunScript(Init, script).store.nextId == |ids| + 1
      && forall k :: 0 <= k < |ids| ==> ids[k] == k + 1
  {
    IssuedIdsConsecutive(Init, script);
  }
}

/** The in-memory task store of the planner (`TaskManager`): tasks in insertion order,
    the id counter, and the fixed category table. Console reads become parameters;
    what the console would print becomes an `Outcome`. */
module TaskStore {
  import opened Wrappers
  import opened Tasks

  /** The four category labels, chosen by index. */
  const Categories: seq<string> := ["Work", "Personal", "Study", "Fitness"]

  datatype Store = Store(tasks: seq<Task>, nextId: int)

  /** A fresh manager: no tasks, the first id handed out is 1. */
  const Init: Store := Store([], 1)

  /** What an operation reports back to the menu loop. */
  datatype Outcome = Added | Updated | Deleted | InvalidId | NotFound | InvalidCategory

  /** What viewing produces: the "no tasks" signal, or one rendered line per task. */
  datatype View = NoTasks | Listing(lines: seq<string>)

  /** A typed category index that passes `catIndex in categories.indices`. */
  predicate ValidIndex(categoryIndex: Option<int>) {
    categoryIndex.Some? && 0 <= categoryIndex.value < |Categories|
  }

  /** The category picked by a typed index; an unparseable index counts as -1. */
  function SelectCategory(categoryIndex: Option<int>): (r: Option<string>)
    ensures r.Some? <==> ValidIndex(categoryIndex)
    ensures r.Some? ==> r.value in Categories && r.value == Categories[categoryIndex.value]
  {
    var i := categoryIndex.GetOr(-1);
    if 0 <= i < |Categories| then Some(Categories[i]) else None
  }

  predicate HasId(tasks: seq<Task>, id: int) {
    exists j :: 0 <= j < |tasks| && tasks[j].id == id
  }

  predicate IdsIncreasing(tasks: seq<Task>) {
    forall i, j :: 0 <= i < j < |tasks| ==> tasks[i].id < tasks[j].id
  }

  /** The store invariant: ids are positive, strictly increasing in list order (hence
      unique) and below `nextId`, and every category is one of the four labels. */
  predicate Valid(s: Store) {
    && 1 <= s.nextId
    && IdsIncreasing(s.tasks)
    && (forall i :: 0 <= i < |s.tasks| ==> 0 < s.tasks[i].id < s.nextId)
    && (forall i :: 0 <= i < |s.tasks| ==> s.tasks[i].category in Categories)
  }

  /** The position of the first task with `id` (`tasks.find { it.id == id }`). */
  function FindById(tasks: seq<Task>, id: int): (r: Option<nat>)
    ensures r.Some? ==> r.value < |tasks| && tasks[r.value].id == id
    ensures r.Some? ==> forall j :: 0 <= j < r.value ==> tasks[j].id != id
    ensures r.None? <==> !HasId(tasks, id)
    decreases |tasks|
  {
    if |tasks| == 0 then None
    else if tasks[0].id == id then Some(0)
    else match FindById(tasks[1..], id)
      case Some(i) => Some(i + 1)
      case None => None
  }

  /** `a` is `b` with some elements left out, the rest in their original order. */
  predicate IsSubsequence<T(==)>(a: seq<T>, b: seq<T>)
    decreases |b|
  {
    if |a| == 0 then true
    else if |b| == 0 then false
    else if a[0] == b[0] then IsSubsequence(a[1..], b[1..])
    else IsSubsequence(a, b[1..])
  }

  /** `tasks.removeIf { it.id == id }`: the remaining tasks, and whether any was removed.
      Every task with another id survives exactly as often as it occurred, in its original
      order; every task with the id is gone. */
  function RemoveById(tasks: seq<Task>, id: int): (r: (seq<Task>, bool))
    ensures r.1 <==> HasId(tasks, id)
    ensures !r.1 ==> r.0 == tasks
    ensures forall t :: t in r.0 <==> t in tasks && t.id != id
    ensures IsSubsequence(r.0, tasks)
    decreases |tasks|
  {
    if |tasks| == 0 then ([], false)
    else
      var (rest, removed) := RemoveById(tasks[1..], id);
      if tasks[0].id == id then (rest, true)
      else ([tasks[0]] + rest, removed)
  }

  /** Every task with another id survives `removeIf` exactly as often as it occurred. */
  lemma {:induction false} RemoveKeepsCounts(tasks: seq<Task>, id: int)
    ensures forall t: Task :: t.id != id ==> multiset(RemoveById(tasks, id).0)[t] == multiset(tasks)[t]
    decreases |tasks|
  {
    if |tasks| > 0 {
      RemoveKeepsCounts(tasks[1..], id);
      var rest := RemoveById(tasks[1..], id).0;
      assert tasks == [tasks[0]] + tasks[1..];
      assert multiset(tasks) == multiset{tasks[0]} + multiset(tasks[1..]);
      assert multiset([tasks[0]] + rest) == multiset{tasks[0]} + multiset(rest);
    }
  }

  /** Adding a task: an index outside 0..3 (or one that did not parse) is rejected and
      nothing changes; otherwise the new task takes the current `nextId`, the chosen
      category and the default status, and goes to the end of the list. */
  function Add(s: Store, title: string, description: string, categoryIndex: Option<int>,
               createdAt: string): (r: (Store, Outcome))
    ensures r.1 == Added || r.1 == InvalidCategory
    ensures r.1 == Added <==> ValidIndex(categoryIndex)
    ensures r.1 == InvalidCategory ==> r.0 == s
    ensures r.1 == Added ==>
      && r.0.nextId == s.nextId + 1
      && |r.0.tasks| == |s.tasks| + 1
      && r.0.tasks[..|s.tasks|] == s.tasks
      && r.0.tasks[|s.tasks|] == Task(s.nextId, title, description,
                                      Categories[categoryIndex.value], "Pending", createdAt)
  {
    match SelectCategory(categoryIndex)
    case None => (s, InvalidCategory)
    case Some(category) =>
      (Store(s.tasks + [NewTask(s.nextId, title, description, category, createdAt)], s.nextId + 1), Added)
  }

  /** Viewing: the "no tasks" signal for an empty store, otherwise every task rendered,
      in insertion order. */
  function ViewTasks(s: Store): (v: View)
    ensures v.NoTasks? <==> |s.tasks| == 0
    ensures v.Listing? ==> |v.lines| == |s.tasks|
    ensures v.Listing? ==> forall i :: 0 <= i < |s.tasks| ==> v.lines[i] == s.tasks[i].Render()
  {
    if |s.tasks| == 0 then NoTasks
    else Listing(seq(|s.tasks|, i requires 0 <= i < |s.tasks| => s.tasks[i].Render()))
  }

  /** Updating: checks, in order, that the id parsed, that a task has it, and that the
      category index is valid; any failure leaves the store exactly as it was. On success
      the first task with the id gets all four new fields at once. */
  function Update(s: Store, id: Option<int>, title: string, description: string,
                  categoryIndex: Option<int>, status: string): (r: (Store, Outcome))
    ensures r.1 in {Updated, InvalidId, NotFound, InvalidCategory}
    ensures r.1 == InvalidId <==> id.None?
    ensures r.1 == NotFound <==> id.Some? && !HasId(s.tasks, id.value)
    ensures r.1 == InvalidCategory <==> id.Some? && HasId(s.tasks, id.value) && !ValidIndex(categoryIndex)
    ensures r.1 != Updated ==> r.0 == s
    ensures r.1 == Updated ==>
      && r.0.nextId == s.nextId
      && exists i :: 0 <= i < |s.tasks| && s.tasks[i].id == id.value
           && (forall j :: 0 <= j < i ==> s.tasks[j].id != id.value)
           && r.0.tasks == s.tasks[i := s.tasks[i].Update(title, description,
                                                           Categories[categoryIndex.value], status)]
  {
    match id
    case None => (s, InvalidId)
    case Some(k) =>
      match FindById(s.tasks, k)
      case None => (s, NotFound)
      case Some(i) =>
        match SelectCategory(categoryIndex)
        case None => (s, InvalidCategory)
        case Some(category) =>
          (s.(tasks := s.tasks[i := s.tasks[i].Update(title, description, category, status)]), Updated)
  }

  /** Deleting: an id that did not parse changes nothing; otherwise every task with the
      id is removed, and the outcome says whether there was one. */
  function Delete(s: Store, id: Option<int>): (r: (Store, Outcome))
    ensures r.1 in {Deleted, NotFound, InvalidId}
    ensures r.1 == InvalidId <==> id.None?
    ensures r.1 == Deleted <==> id.Some? && HasId(s.tasks, id.value)
    ensures r.1 != Deleted ==> r.0 == s
    ensures r.0.nextId == s.nextId
    ensures id.Some? ==> !HasId(r.0.tasks, id.value)
    ensures id.Some? ==> forall t :: t in r.0.tasks <==> t in s.tasks && t.id != id.value
  {
    match id
    case None => (s, InvalidId)
    case Some(k) =>
      var (rest, removed) := RemoveById(s.tasks, k);
      (s.(tasks := rest), if removed then Deleted else NotFound)
  }

  // ---------------------------------------------------------------------------
  // The store invariant

  lemma InitValid()
    ensures Valid(Init)
    ensures ViewTasks(Init) == NoTasks
  {
  }

  /** Strictly increasing ids are pairwise distinct. */
  lemma ValidIdsUnique(s: Store)
    requires Valid(s)
    ensures forall i, j :: 0 <= i < |s.tasks| && 0 <= j < |s.tasks| && i != j ==> s.tasks[i].id != s.tasks[j].id
  {
    forall i, j | 0 <= i < |s.tasks| && 0 <= j < |s.tasks| && i != j
      ensures s.tasks[i].id != s.tasks[j].id
    {
      if i < j {
        assert s.tasks[i].id < s.tasks[j].id;
      } else {
        assert s.tasks[j].id < s.tasks[i].id;
      }
    }
  }

  lemma AddPreservesValid(s: Store, title: string, description: string, categoryIndex: Option<int>,
                          createdAt: string)
    requires Valid(s)
    ensures Valid(Add(s, title, description, categoryIndex, createdAt).0)
  {
  }

  /** A freshly added task's id is larger than every id already stored. */
  lemma AddAssignsFreshId(s: Store, title: string, description: string, categoryIndex: Option<int>,
                          createdAt: string)
    requires Valid(s)
    requires Add(s, title, description, categoryIndex, createdAt).1 == Added
    ensures var s' := Add(s, title, description, categoryIndex, createdAt).0;
      && s'.tasks[|s'.tasks| - 1].id == s.nextId
      && (forall i :: 0 <= i < |s.tasks| ==> s.tasks[i].id < s'.tasks[|s'.tasks| - 1].id)
      && !HasId(s.tasks, s.nextId)
  {
  }

  lemma UpdatePreservesValid(s: Store, id: Option<int>, title: string, description: string,
                             categoryIndex: Option<int>, status: string)
    requires Valid(s)
    ensures Valid(Update(s, id, title, description, categoryIndex, status).0)
  {
  }

  /** With unique ids, a successful update touches exactly the task carrying the id:
      every other task is unchanged, and that one keeps its id and creation time. */
  lemma UpdateTouchesOnlyTarget(s: Store, id: int, title: string, description: string,
                                categoryIndex: Option<int>, status: string)
    requires Valid(s)
    requires Update(s, Some(id), title, description, categoryIndex, status).1 == Updated
    ensures var s' := Update(s, Some(id), title, description, categoryIndex, status).0;
      && |s'.tasks| == |s.tasks|
      && (forall k :: 0 <= k < |s.tasks| && s.tasks[k].id != id ==> s'.tasks[k] == s.tasks[k])
      && (forall k :: 0 <= k < |s.tasks| && s.tasks[k].id == id ==>
            s'.tasks[k] == Task(id, title, description, Categories[categoryIndex.value], status,
                                s.tasks[k].createdAt))
  {
    ValidIdsUnique(s);
  }

  /** Dropping the first task of an id-ordered list leaves it id-ordered. */
  lemma TailKeepsOrder(tasks: seq<Task>)
    requires IdsIncreasing(tasks) && |tasks| > 0
    ensures IdsIncreasing(tasks[1..])
  {
    var tail := tasks[1..];
    forall i, j | 0 <= i < j < |tail| ensures tail[i].id < tail[j].id {
      assert tail[i] == tasks[i + 1] && tail[j] == tasks[j + 1];
    }
  }

  /** Putting a task with a smaller id than all others in front keeps the list id-ordered. */
  lemma PrependKeepsOrder(t: Task, rest: seq<Task>)
    requires IdsIncreasing(rest)
    requires forall u :: u in rest ==> t.id < u.id
    ensures IdsIncreasing([t] + rest)
  {
    var r := [t] + rest;
    forall i, j | 0 <= i < j < |r| ensures r[i].id < r[j].id {
      assert r[j] == rest[j - 1];
      if i > 0 {
        assert r[i] == rest[i - 1];
      } else {
        assert r[j] in rest;
      }
    }
  }

  /** Removing by id keeps the remaining tasks in their original relative order. */
  lemma {:induction false} RemovePreservesOrder(tasks: seq<Task>, id: int)
    requires IdsIncreasing(tasks)
    ensures IdsIncreasing(RemoveById(tasks, id).0)
    decreases |tasks|
  {
    if |tasks| > 0 {
      var tail := tasks[1..];
      TailKeepsOrder(tasks);
      RemovePreservesOrder(tail, id);
      var rest := RemoveById(tail, id).0;
      if tasks[0].id != id {
        forall u | u in rest ensures tasks[0].id < u.id {
          var j :| 0 <= j < |tail| && tail[j] == u;
          assert tasks[j + 1] == u;
        }
        PrependKeepsOrder(tasks[0], rest);
      }
    }
  }

  lemma DeletePreservesValid(s: Store, id: Option<int>)
    requires Valid(s)
    ensures Valid(Delete(s, id).0)
  {
    if id.Some? {
      var s' := Delete(s, id).0;
      RemovePreservesOrder(s.tasks, id.value);
      forall i | 0 <= i < |s'.tasks|
        ensures 0 < s'.tasks[i].id < s'.nextId && s'.tasks[i].category in Categories
      {
        assert s'.tasks[i] in s.tasks;
      }
    }
  }

  /** The head of an id-ordered list has the least id, and is the only task with it. */
  lemma HeadIsLeast(a: seq<Task>)
    requires IdsIncreasing(a) && |a| > 0
    ensures forall t :: t in a ==> a[0].id <= t.id && (t.id == a[0].id ==> t == a[0])
  {
    forall t | t in a ensures a[0].id <= t.id && (t.id == a[0].id ==> t == a[0]) {
      var x :| 0 <= x < |a| && a[x] == t;
      if x > 0 {
        assert a[0].id < a[x].id;
      }
    }
  }

  /** The tail of an id-ordered list holds every task but the head. */
  lemma TailMembers(a: seq<Task>)
    requires IdsIncreasing(a) && |a| > 0
    ensures forall t :: t in a[1..] <==> t in a && t != a[0]
  {
    assert a == [a[0]] + a[1..];
    forall t | t in a[1..] ensures t != a[0] {
      var x :| 0 <= x < |a[1..]| && a[1..][x] == t;
      assert a[x + 1] == t;
    }
  }

  /** Lists holding the same tasks are empty together. */
  lemma SameTasksEmptyTogether(a: seq<Task>, b: seq<Task>)
    requires forall t :: t in a <==> t in b
    ensures |a| == 0 <==> |b| == 0
  {
    if |a| > 0 {
      assert a[0] in b;
    }
    if |b| > 0 {
      assert b[0] in a;
    }
  }

  /** Two id-ordered task lists holding the same tasks are the same list. */
  lemma {:induction false} OrderedBySameTasks(a: seq<Task>, b: seq<Task>)
    requires IdsIncreasing(a) && IdsIncreasing(b)
    requires forall t :: t in a <==> t in b
    ensures a == b
    decreases |a|
  {
    SameTasksEmptyTogether(a, b);
    if |a| > 0 {
      assert a[0] in b;
      HeadIsLeast(a);
      HeadIsLeast(b);
      assert b[0] in a;
      assert a[0] == b[0];
      TailMembers(a);
      TailMembers(b);
      TailKeepsOrder(a);
      TailKeepsOrder(b);
      OrderedBySameTasks(a[1..], b[1..]);
      assert a == [a[0]] + a[1..] && b == [b[0]] + b[1..];
    }
  }

  /** Deleting from a valid store leaves exactly the other tasks, in their original order:
      any id-ordered list of precisely those tasks is the result. */
  lemma DeleteKeepsOthersInOrder(s: Store, id: int, others: seq<Task>)
    requires Valid(s)
    requires IdsIncreasing(others)
    requires forall t :: t in others <==> t in s.tasks && t.id != id
    ensures Delete(s, Some(id)).0.tasks == others
  {
    RemovePreservesOrder(s.tasks, id);
    OrderedBySameTasks(Delete(s, Some(id)).0.tasks, others);
  }

  /** After deleting an id, looking it up finds nothing. */
  lemma DeleteThenFind(s: Store, id: int)
    ensures FindById(Delete(s, Some(id)).0.tasks, id).None?
  {
  }

  /** Ids are never reused: after a task is deleted, the next successful add hands out an
      id strictly larger than the deleted one. */
  lemma DeletedIdNotReissued(s: Store, id: int, title: string, description: string,
                             categoryIndex: Option<int>, createdAt: string)
    requires Valid(s)
    requires Delete(s, Some(id)).1 == Deleted
    requires Add(Delete(s, Some(id)).0, title, description, categoryIndex, createdAt).1 == Added
    ensures var s'' := Add(Delete(s, Some(id)).0, title, description, categoryIndex, createdAt).0;
      s''.tasks[|s''.tasks| - 1].id > id
  {
    var j :| 0 <= j < |s.tasks| && s.tasks[j].id == id;
  }

  /** A successful add appends exactly one rendered line to the view. */
  lemma ViewAfterAdd(s: Store, title: string, description: string, categoryIndex: Option<int>,
                     createdAt: string)
    requires Add(s, title, description, categoryIndex, createdAt).1 == Added
    ensures var s' := Add(s, title, description, categoryIndex, createdAt).0;
      var before := if |s.tasks| == 0 then [] else ViewTasks(s).lines;
      ViewTasks(s') == Listing(before + [s'.tasks[|s.tasks|].Render()])
  {
  }

  /** The ids read back from a view of a valid store are the stored ids, strictly
      increasing line by line. */
  lemma ViewShowsIdsInOrder(s: Store)
    requires Valid(s)
    requires |s.tasks| > 0
    ensures var lines := ViewTasks(s).lines;
      && (forall i :: 0 <= i < |lines| ==> IdOfLine(lines[i]) == Some(s.tasks[i].id))
      && (forall i, j :: 0 <= i < j < |lines| ==> IdOfLine(lines[i]).value < IdOfLine(lines[j]).value)
  {
  }
}

/** One to-do record of the planner and its console rendering. */
module Tasks {
  import opened Wrappers
  import opened Decimal

  /** The status a task is created with. */
  const DefaultStatus: string := "Pending"

  /** A task. `id` and `createdAt` never change after construction; the other four fields
      are replaced together by `Update`. `createdAt` is the already formatted timestamp. */
  datatype Task = Task(
    id: int,
    title: string,
    description: string,
    category: string,
    status: string,
    createdAt: string)
  {
    /** Replaces title, description, category and status in one step. */
    function Update(newTitle: string, newDescription: string, newCategory: string, newStatus: string): (u: Task)
      ensures u.id == id && u.createdAt == createdAt
      ensures u.title == newTitle && u.description == newDescription
      ensures u.category == newCategory && u.status == newStatus
    {
      this.(title := newTitle, description := newDescription, category := newCategory, status := newStatus)
    }

    /** `[id] title | category | status | Created: createdAt`, a newline, then
        `Description: description`. The line opens with the bracketed id, which reads
        back as `id`, and closes with the description. */
    function Render(): (r: string)
      ensures IdOfLine(r) == Some(id)
      ensures |r| >= |description| && r[|r| - |description|..] == description
    {
      var fields := title + " | " + category + " | " + status
        + " | Created: " + createdAt + "\nDescription: " + description;
      BracketedIdRoundTrip(id, fields);
      "[" + IntToString(id) + "] " + fields
    }
  }

  /** A task as the constructor builds it when status is not given. */
  function NewTask(id: int, title: string, description: string, category: string, createdAt: string): Task {
    Task(id, title, description, category, DefaultStatus, createdAt)
  }

  /** The first position at or after `from` holding `c`. */
  function IndexOf(s: string, c: char, from: nat): (r: Option<nat>)
    ensures r.Some? ==> from <= r.value < |s| && s[r.value] == c
    ensures r.Some? ==> forall j :: from <= j < r.value ==> s[j] != c
    ensures r.None? ==> forall j :: from <= j < |s| ==> s[j] != c
    decreases |s| - from
  {
    if from >= |s| then None
    else if s[from] == c then Some(from)
    else IndexOf(s, c, from + 1)
  }

  /** The id written between the leading `[` and the first `]` of a rendered line. */
  function IdOfLine(line: string): Option<int> {
    if |line| > 0 && line[0] == '[' then
      match IndexOf(line, ']', 1)
      case Some(k) => ParseDecimal(line[1..k])
      case None => None
    else None
  }

  /** A line that opens with `[`, the printed id and `] ` names that id, whatever follows. */
  lemma BracketedIdRoundTrip(id: int, rest: string)
    ensures IdOfLine("[" + IntToString(id) + "] " + rest) == Some(id)
  {
    var digits := IntToString(id);
    var line := "[" + digits + "] " + rest;
    var k := 1 + |digits|;
    assert line[k] == ']';
    assert forall j :: 1 <= j < k ==> line[j] == digits[j - 1];
    var found := IndexOf(line, ']', 1);
    assert found == Some(k);
    assert line[1..k] == digits;
    IntToStringRoundTrip(id);
  }

  /** Tasks with different ids never render to the same text. */
  lemma RenderDistinguishesIds(t: Task, u: Task)
    requires t.id != u.id
    ensures t.Render() != u.Render()
  {
  }

  /** Updates replace all four fields together: a second update wipes out the first. */
  lemma UpdateLastWins(t: Task, a1: string, b1: string, c1: string, d1: string,
                       a2: string, b2: string, c2: string, d2: string)
    ensures t.Update(a1, b1, c1, d1).Update(a2, b2, c2, d2) == t.Update(a2, b2, c2, d2)
  {
  }
}

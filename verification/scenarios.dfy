/** Concrete sessions worked through on the model. */
module Scenarios {
  import opened Wrappers
  import opened Tasks
  import opened TaskStore

  /** Adding "Buy milk" as Work to a fresh store gives one task, id 1, status Pending,
      and viewing shows exactly one line, its rendering, which names id 1. */
  lemma BuyMilk(createdAt: string)
    ensures var (s, o) := Add(Init, "Buy milk", "2%", Some(0), createdAt);
      && o == Added
      && s.tasks == [Task(1, "Buy milk", "2%", "Work", "Pending", createdAt)]
      && ViewTasks(s) == Listing([s.tasks[0].Render()])
      && IdOfLine(ViewTasks(s).lines[0]) == Some(1)
  {
    var (s, _) := Add(Init, "Buy milk", "2%", Some(0), createdAt);
    assert ViewTasks(s).lines == [s.tasks[0].Render()];
  }

  /** Work task 1, Study task 2, delete 1, add again: two tasks remain, task 2 and the new
      task, which gets id 3, not 1. */
  lemma IdsNotReused(t0: string, t1: string, t2: string)
    ensures var (s1, _) := Add(Init, "a", "", Some(0), t0);
      var (s2, _) := Add(s1, "b", "", Some(2), t1);
      var (s3, o3) := Delete(s2, Some(1));
      var (s4, o4) := Add(s3, "c", "", Some(0), t2);
      && o3 == Deleted && o4 == Added
      && |s4.tasks| == 2
      && [s4.tasks[0].id, s4.tasks[1].id] == [2, 3]
      && s4.tasks[0].title == "b" && s4.tasks[1].title == "c"
  {
  }

  /** Updating task 2 with category index 5 is refused and task 2 keeps its Study fields. */
  lemma UpdateBadCategory(t0: string, t1: string)
    ensures var (s1, _) := Add(Init, "a", "", Some(0), t0);
      var (s2, _) := Add(s1, "b", "x", Some(2), t1);
      var (s3, o3) := Update(s2, Some(2), "new", "new", Some(5), "Completed");
      && o3 == InvalidCategory
      && s3 == s2
      && s3.tasks[1] == Task(2, "b", "x", "Study", "Pending", t1)
  {
  }
}

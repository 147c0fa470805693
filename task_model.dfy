/**
 * backend/app/models/task.rb: validations, completion state, and the cascade
 * `dependent: :destroy` runs through comments and subtasks.
 */
module TaskModel {
  import opened Common
  import opened Schema

  const Categories: seq<string> := ["money", "procedure", "event", "health", "other"]

  /** PRIORITIES: low = 1, medium = 2, high = 3. */
  const Priorities: seq<int> := [1, 2, 3]

  predicate CategoryAllowed(c: Option<string>)
  {
    c.None? || c.value in Categories
  }

  predicate PriorityAllowed(p: Option<int>)
  {
    p.None? || p.value in Priorities
  }

  /**
   * The full error messages of saving a task, in declaration order: the
   * required couple, the title, the category and the priority.
   */
  function TaskErrors(t: Task, coupleExists: bool): (r: seq<string>)
    ensures r == [] <==> coupleExists && !Blank(t.title) && CategoryAllowed(t.category) && PriorityAllowed(t.priority)
    ensures Blank(t.title) ==> "Title can't be blank" in r
  {
    (if coupleExists then [] else ["Couple must exist"])
    + (if Blank(t.title) then ["Title can't be blank"] else [])
    + (if CategoryAllowed(t.category) then [] else ["Category is not included in the list"])
    + (if PriorityAllowed(t.priority) then [] else ["Priority is not included in the list"])
  }

  /** What every stored task satisfies. */
  predicate ValidTask(t: Task)
  {
    !Blank(t.title) && CategoryAllowed(t.category) && PriorityAllowed(t.priority)
  }

  lemma ValidTaskHasNoErrors(t: Task)
    requires ValidTask(t)
    ensures TaskErrors(t, true) == []
  {
  }

  /** `completed?` */
  predicate IsCompleted(t: Task)
  {
    t.completedAt.Some?
  }

  /** Scope `completed`: `where.not(completed_at: nil)`. */
  predicate InCompletedScope(t: Task)
  {
    t.completedAt != None
  }

  /** Scope `incomplete`: `where(completed_at: nil)`. */
  predicate InIncompleteScope(t: Task)
  {
    t.completedAt == None
  }

  /** The two scopes split every task, and `completed?` agrees with them. */
  lemma ScopesPartition(t: Task)
    ensures InCompletedScope(t) != InIncompleteScope(t)
    ensures IsCompleted(t) <==> InCompletedScope(t)
  {
  }

  /**
   * Saving a record after attribute assignment: with no changed attribute nothing is written;
   * otherwise `updated_at` moves to now.
   */
  function Saved(stored: Task, changed: Task, now: Time): (r: Task)
    ensures changed == stored ==> r == stored
    ensures changed != stored ==> r == changed.(updatedAt := now)
  {
    if changed == stored then stored else changed.(updatedAt := now)
  }

  /** `complete!`: `update!(completed_at: Time.current)`. */
  function MarkComplete(t: Task, now: Time): (r: Task)
    requires t.updatedAt <= now
    ensures IsCompleted(r) && r.completedAt == Some(now)
    ensures r.(completedAt := t.completedAt, updatedAt := t.updatedAt) == t
  {
    Saved(t, t.(completedAt := Some(now)), now)
  }

  /** `incomplete!`: `update!(completed_at: nil)`; a no-op on an incomplete task. */
  function MarkIncomplete(t: Task, now: Time): (r: Task)
    ensures !IsCompleted(r)
    ensures !IsCompleted(t) ==> r == t
    ensures IsCompleted(t) ==> r == t.(completedAt := None, updatedAt := now)
  {
    Saved(t, t.(completedAt := None), now)
  }

  lemma {:induction false} IncompleteIsIdempotent(t: Task, now1: Time, now2: Time)
    ensures MarkIncomplete(MarkIncomplete(t, now1), now2) == MarkIncomplete(t, now1)
  {
    assert !IsCompleted(MarkIncomplete(t, now1));
  }

  // The cascade of `has_many :subtasks, dependent: :destroy` and
  // `has_many :comments, dependent: :destroy`.

  /** The tasks whose parent is in `s` (`subtasks` looks only at `parent_id`). */
  function Children(tasks: map<Id, Task>, s: set<Id>): (r: set<Id>)
    ensures r <= tasks.Keys
  {
    set t | t in tasks && tasks[t].parentId.Some? && tasks[t].parentId.value in s
  }

  /** Whether no task outside `x` has its parent inside `x`. */
  predicate ClosedUnderSubtasks(tasks: map<Id, Task>, x: set<Id>)
  {
    Children(tasks, x) <= x
  }

  /**
   * The tasks a recursive destroy of `roots` reaches: the roots, their
   * subtasks, the subtasks of those, and so on.
   */
  function Subtree(tasks: map<Id, Task>, roots: set<Id>): (r: set<Id>)
    requires roots <= tasks.Keys
    ensures roots <= r <= tasks.Keys
    ensures ClosedUnderSubtasks(tasks, r)
    decreases |tasks.Keys - roots|
  {
    var next := roots + Children(tasks, roots);
    if next <= roots then roots
    else
      assert tasks.Keys - next < tasks.Keys - roots;
      CardinalityShrinks(tasks.Keys - next, tasks.Keys - roots);
      Subtree(tasks, next)
  }

  lemma CardinalityShrinks(a: set<Id>, b: set<Id>)
    requires a < b
    ensures |a| < |b|
  {
    assert b - a != {};
    var x :| x in b - a;
    SubsetCardinality(a, b - {x});
  }

  /** The subtree is the least set holding the roots that is closed under subtasks. */
  lemma {:induction false} SubtreeIsLeast(tasks: map<Id, Task>, roots: set<Id>, x: set<Id>)
    requires roots <= tasks.Keys
    requires roots <= x && ClosedUnderSubtasks(tasks, x)
    ensures Subtree(tasks, roots) <= x
    decreases |tasks.Keys - roots|
  {
    var next := roots + Children(tasks, roots);
    if !(next <= roots) {
      assert Children(tasks, roots) <= Children(tasks, x);
      assert tasks.Keys - next < tasks.Keys - roots;
      CardinalityShrinks(tasks.Keys - next, tasks.Keys - roots);
      SubtreeIsLeast(tasks, next, x);
    }
  }

  /** A subtask of a destroyed task is destroyed with it. */
  lemma SubtreeHoldsSubtasks(tasks: map<Id, Task>, roots: set<Id>, t: Id)
    requires roots <= tasks.Keys
    requires t in tasks && tasks[t].parentId.Some? && tasks[t].parentId.value in Subtree(tasks, roots)
    ensures t in Subtree(tasks, roots)
  {
    assert t in Children(tasks, Subtree(tasks, roots));
  }

  /**
   * Whether the recursive destroy of `roots` never ends: some task it reaches
   * is its own descendant, as after an update that makes a task its own
   * ancestor. Rails then overflows the stack and rolls the destroy back.
   */
  predicate Diverges(tasks: map<Id, Task>, roots: set<Id>)
    requires roots <= tasks.Keys
  {
    exists x :: x in Subtree(tasks, roots) && x in Subtree(tasks, Children(tasks, {x}))
  }

  lemma {:induction false} SelfParentDiverges(tasks: map<Id, Task>, t: Id)
    requires t in tasks && tasks[t].parentId == Some(t)
    ensures Diverges(tasks, {t})
  {
    assert t in Children(tasks, {t});
    assert t in Subtree(tasks, Children(tasks, {t}));
    assert t in Subtree(tasks, {t});
  }

  /**
   * Destroying the tasks `roots` with everything that depends on them: their
   * subtrees and every comment on a task in them. Users and couples stay.
   */
  function DestroyTasks(db: Db, roots: set<Id>): (r: Db)
    requires roots <= db.tasks.Keys
    ensures r.users == db.users && r.couples == db.couples
    ensures r.tasks.Keys == db.tasks.Keys - Subtree(db.tasks, roots)
    ensures forall t :: t in r.tasks ==> r.tasks[t] == db.tasks[t]
    ensures forall t :: t in r.tasks && r.tasks[t].parentId.Some? ==>
      r.tasks[t].parentId.value !in Subtree(db.tasks, roots)
    ensures forall c :: c in r.comments <==> c in db.comments && db.comments[c].taskId !in Subtree(db.tasks, roots)
    ensures forall c :: c in r.comments ==> r.comments[c] == db.comments[c]
  {
    var gone := Subtree(db.tasks, roots);
    assert forall t :: t in db.tasks && t !in gone && db.tasks[t].parentId.Some? ==>
      db.tasks[t].parentId.value !in gone by {
      forall t | t in db.tasks && t !in gone && db.tasks[t].parentId.Some?
        ensures db.tasks[t].parentId.value !in gone
      {
        if db.tasks[t].parentId.value in gone {
          SubtreeHoldsSubtasks(db.tasks, roots, t);
        }
      }
    }
    db.(tasks := map t | t in db.tasks && t !in gone :: db.tasks[t],
        comments := map c | c in db.comments && db.comments[c].taskId !in gone :: db.comments[c])
  }
}

/**
 * backend/app/controllers/api/tasks_controller.rb: the `index` query, the
 * couple scoping of `set_task`, attribute assignment from `task_params`, the
 * reading of the `completed` parameter, and `task_response`. The actions are
 * methods of Backend.Store.
 */
module TasksApi {
  import opened Common
  import opened Schema
  import opened TaskModel
  import opened CommentModel
  import opened Integrity
  import opened AppController
  import opened CommentsApi

  // ---- index ----

  /** The query parameters `index` reads; each may be absent. */
  datatype IndexParams = IndexParams(category: Option<string>, assigneeId: Option<string>, status: Option<string>)

  /**
   * Whether the assignee column matches the parameter text. The column is an
   * integer, so the text names it by its decimal digits.
   */
  predicate AssigneeMatches(t: Task, text: string)
  {
    t.assigneeId.Some? && DecimalText(t.assigneeId.value) == text
  }

  /** The filter `assignee_id=` with an id's decimal text selects exactly the tasks assigned to that id. */
  lemma AssigneeFilterSelectsId(t: Task, u: Id)
    ensures AssigneeMatches(t, DecimalText(u)) <==> t.assigneeId == Some(u)
  {
    if t.assigneeId.Some? {
      DecimalTextInjective(t.assigneeId.value, u);
    }
  }

  /** The conditions `index` puts on a task of the table. */
  predicate MatchesIndex(couple: Id, p: IndexParams, t: Task)
  {
    && t.coupleId == couple && t.parentId.None?
    && (Present(p.category) ==> t.category.Some? && SameText(t.category.value, p.category.value))
    && (Present(p.assigneeId) ==> AssigneeMatches(t, p.assigneeId.value))
    && (p.status == Some("completed") ==> InCompletedScope(t))
    && (p.status == Some("incomplete") ==> InIncompleteScope(t))
  }

  /** A listing of task ids, newest `created_at` first. */
  ghost predicate NewestFirst(tasks: map<Id, Task>, s: seq<Id>)
  {
    && (forall i :: 0 <= i < |s| ==> s[i] in tasks)
    && forall i, j :: 0 <= i < j < |s| ==> tasks[s[i]].createdAt > tasks[s[j]].createdAt
  }

  /**
   * The tasks `index` renders. Ids grow with creation time, so walking the ids
   * downward gives `order(created_at: :desc)`.
   */
  function IndexIds(tasks: map<Id, Task>, n: nat, couple: Id, p: IndexParams): (r: seq<Id>)
    requires ChronologicalTasks(tasks) && KeysBelow(tasks, n)
    ensures forall t :: t in r <==> t in tasks && MatchesIndex(couple, p, tasks[t])
    ensures NewestFirst(tasks, r)
    ensures forall i :: 0 <= i < |r| ==> tasks[r[i]].coupleId == couple && tasks[r[i]].parentId.None?
    ensures p.status == Some("completed") ==> forall i :: 0 <= i < |r| ==> tasks[r[i]].completedAt.Some?
    ensures p.status == Some("incomplete") ==> forall i :: 0 <= i < |r| ==> tasks[r[i]].completedAt.None?
  {
    var asc := Where(tasks, n, (id: Id, t: Task) => MatchesIndex(couple, p, t));
    ReversedIsNewestFirst(tasks, asc);
    var r := Reverse(asc);
    assert forall i :: 0 <= i < |r| ==> MatchesIndex(couple, p, tasks[r[i]]) by {
      forall i | 0 <= i < |r|
        ensures MatchesIndex(couple, p, tasks[r[i]])
      {
        assert r[i] == asc[|asc| - 1 - i];
      }
    }
    r
  }

  /** Ids in ascending order, reversed, are newest first. */
  lemma ReversedIsNewestFirst(tasks: map<Id, Task>, asc: seq<Id>)
    requires ChronologicalTasks(tasks)
    requires forall i :: 0 <= i < |asc| ==> asc[i] in tasks
    requires forall i, j :: 0 <= i < j < |asc| ==> asc[i] < asc[j]
    ensures NewestFirst(tasks, Reverse(asc))
    ensures forall t :: t in Reverse(asc) <==> t in asc
  {
    ReverseKeepsElements(asc);
    var r := Reverse(asc);
    forall i, j | 0 <= i < j < |r|
      ensures tasks[r[i]].createdAt > tasks[r[j]].createdAt
    {
      var a, b := asc[|asc| - 1 - i], asc[|asc| - 1 - j];
      assert r[i] == a && r[j] == b;
      assert b < a;
      assert a in tasks && b in tasks;
    }
  }

  /** A category or assignee parameter that is absent or blank filters nothing. */
  lemma BlankFiltersIgnored(tasks: map<Id, Task>, n: nat, couple: Id, p: IndexParams)
    requires ChronologicalTasks(tasks) && KeysBelow(tasks, n)
    requires !Present(p.category) && !Present(p.assigneeId)
    ensures IndexIds(tasks, n, couple, p) == IndexIds(tasks, n, couple, p.(category := None, assigneeId := None))
  {
    var q := p.(category := None, assigneeId := None);
    WhereAgrees(tasks, n, (id: Id, t: Task) => MatchesIndex(couple, p, t), (id: Id, t: Task) => MatchesIndex(couple, q, t));
  }

  /** A status other than "completed" and "incomplete" adds no condition. */
  lemma OtherStatusIgnored(tasks: map<Id, Task>, n: nat, couple: Id, p: IndexParams)
    requires ChronologicalTasks(tasks) && KeysBelow(tasks, n)
    requires p.status != Some("completed") && p.status != Some("incomplete")
    ensures IndexIds(tasks, n, couple, p) == IndexIds(tasks, n, couple, p.(status := None))
  {
    var q := p.(status := None);
    WhereAgrees(tasks, n, (id: Id, t: Task) => MatchesIndex(couple, p, t), (id: Id, t: Task) => MatchesIndex(couple, q, t));
  }

  /** The two status filters split the unfiltered listing. */
  lemma StatusesSplitListing(tasks: map<Id, Task>, n: nat, couple: Id, p: IndexParams, t: Id)
    requires ChronologicalTasks(tasks) && KeysBelow(tasks, n)
    ensures t in IndexIds(tasks, n, couple, p.(status := None)) <==>
      (t in IndexIds(tasks, n, couple, p.(status := Some("completed"))))
      != (t in IndexIds(tasks, n, couple, p.(status := Some("incomplete"))))
  {
    if t in tasks {
      ScopesPartition(tasks[t]);
    }
  }

  // ---- task_params ----

  /** The permitted attributes of `create` and `update`. */
  datatype TaskParams = TaskParams(title: Param<string>, description: Param<string>,
                                   category: Param<string>, priority: Param<int>,
                                   dueDate: Param<int>, assigneeId: Param<Id>, parentId: Param<Id>)

  /**
   * Mass assignment of `task_params`: each sent attribute replaces the current
   * value, the rest stay. A nil title is held as the empty string, which is blank
   * as nil is.
   */
  function AssignTask(t: Task, p: TaskParams): (r: Task)
    ensures r.coupleId == t.coupleId && r.completedAt == t.completedAt
    ensures r.createdAt == t.createdAt && r.updatedAt == t.updatedAt
    ensures p.title.Omitted? ==> r.title == t.title
    ensures p.title == Sent(None) ==> Blank(r.title)
    ensures p.title.Sent? && p.title.value.Some? ==> r.title == p.title.value.value
    ensures r.description == Assign(p.description, t.description)
    ensures r.category == Assign(p.category, t.category)
    ensures r.priority == Assign(p.priority, t.priority)
    ensures r.dueDate == Assign(p.dueDate, t.dueDate)
    ensures r.assigneeId == Assign(p.assigneeId, t.assigneeId)
    ensures r.parentId == Assign(p.parentId, t.parentId)
  {
    var title := match p.title
      case Omitted => t.title
      case Sent(v) => v.GetOr("");
    t.(title := title,
       description := Assign(p.description, t.description),
       category := Assign(p.category, t.category),
       priority := Assign(p.priority, t.priority),
       dueDate := Assign(p.dueDate, t.dueDate),
       assigneeId := Assign(p.assigneeId, t.assigneeId),
       parentId := Assign(p.parentId, t.parentId))
  }

  /** `current_couple.tasks.build(task_params)`: a new, incomplete task of the couple. */
  function BuildTask(p: TaskParams, couple: Id, now: Time): (r: Task)
    ensures r.coupleId == couple && r.completedAt == None
    ensures r.createdAt == now && r.updatedAt == now
    ensures p.title.Sent? && p.title.value.Some? ==> r.title == p.title.value.value
    ensures p.title == Omitted || p.title == Sent(None) ==> Blank(r.title)
    ensures r.category == Assign(p.category, None) && r.priority == Assign(p.priority, None)
    ensures r.assigneeId == Assign(p.assigneeId, None) && r.parentId == Assign(p.parentId, None)
  {
    AssignTask(Task(couple, None, "", None, None, None, None, None, now, now, None), p)
  }

  /** An update sending nothing changes nothing, so `update` writes nothing. */
  lemma EmptyUpdateChangesNothing(t: Task, now: Time)
    ensures Saved(t, AssignTask(t, TaskParams(Omitted, Omitted, Omitted, Omitted, Omitted, Omitted, Omitted)), now) == t
  {
  }

  // ---- complete ----

  /** The `completed` parameter: absent or JSON null, a JSON boolean, or text. */
  datatype CompletedParam = Missing | Flag(b: bool) | Text(s: string)

  /**
   * `complete`: `false` and `'false'` clear the completion time; anything
   * else, absent included, sets it to now.
   */
  function ApplyCompleted(t: Task, c: CompletedParam, now: Time): (r: Task)
    requires t.updatedAt <= now
    ensures IsCompleted(r) <==> c != Flag(false) && c != Text("false")
    ensures IsCompleted(r) ==> r.completedAt == Some(now)
    ensures r.(completedAt := t.completedAt, updatedAt := t.updatedAt) == t
    ensures r.updatedAt == t.updatedAt || r.updatedAt == now
  {
    if c == Flag(false) || c == Text("false") then MarkIncomplete(t, now) else MarkComplete(t, now)
  }

  // ---- task_response ----

  /** `task_response(task)` without details. */
  datatype TaskView = TaskView(id: Id, title: string, description: Option<string>,
                               category: Option<string>, priority: Option<int>, dueDate: Option<int>,
                               completed: bool, completedAt: Option<Time>, assignee: Option<MemberView>,
                               parentId: Option<Id>, commentsCount: nat, subtasksCount: nat,
                               createdAt: Time, updatedAt: Time)

  /** `task_response(task, include_details: true)`: subtasks are rendered without details. */
  datatype TaskDetail = TaskDetail(task: TaskView, comments: seq<CommentView>, subtasks: seq<TaskView>)

  /** The direct subtasks of a task, oldest first (`task.subtasks.order(:created_at)`). */
  function SubtaskIds(tasks: map<Id, Task>, n: nat, id: Id): (r: seq<Id>)
    requires ChronologicalTasks(tasks) && KeysBelow(tasks, n)
    ensures forall t :: t in r <==> t in tasks && tasks[t].parentId == Some(id)
    ensures forall i, j :: 0 <= i < j < |r| ==> tasks[r[i]].createdAt < tasks[r[j]].createdAt
  {
    Where(tasks, n, (k: Id, t: Task) => t.parentId == Some(id))
  }

  function TaskResponse(db: Db, n: nat, id: Id): (v: TaskView)
    requires id in db.tasks
    requires KeysBelow(db.tasks, n) && KeysBelow(db.comments, n)
    ensures v.id == id && v.title == db.tasks[id].title && v.description == db.tasks[id].description
    ensures v.category == db.tasks[id].category && v.priority == db.tasks[id].priority
    ensures v.dueDate == db.tasks[id].dueDate && v.parentId == db.tasks[id].parentId
    ensures v.completedAt == db.tasks[id].completedAt && v.completed == v.completedAt.Some?
    ensures v.createdAt == db.tasks[id].createdAt && v.updatedAt == db.tasks[id].updatedAt
    ensures v.assignee.Some? <==> db.tasks[id].assigneeId.Some? && db.tasks[id].assigneeId.value in db.users
    ensures v.assignee.Some? ==> v.assignee.value == Member(db.users, db.tasks[id].assigneeId.value)
    ensures v.commentsCount == |set c | c in db.comments && db.comments[c].taskId == id|
    ensures v.subtasksCount == |Children(db.tasks, {id})|
  {
    var t := db.tasks[id];
    var onTask := (k: Id, c: Comment) => c.taskId == id;
    var underTask := (k: Id, s: Task) => s.parentId == Some(id);
    WhereCount(db.comments, n, onTask);
    WhereCount(db.tasks, n, underTask);
    assert Selected(db.comments, n, onTask) == set c | c in db.comments && db.comments[c].taskId == id;
    assert Selected(db.tasks, n, underTask) == Children(db.tasks, {id});
    TaskView(id, t.title, t.description, t.category, t.priority, t.dueDate,
             IsCompleted(t), t.completedAt,
             if t.assigneeId.Some? && t.assigneeId.value in db.users then Some(Member(db.users, t.assigneeId.value)) else None,
             t.parentId, |Where(db.comments, n, onTask)|, |Where(db.tasks, n, underTask)|,
             t.createdAt, t.updatedAt)
  }

  function TaskDetailResponse(db: Db, n: nat, id: Id): (v: TaskDetail)
    requires id in db.tasks
    requires KeysBelow(db.tasks, n) && KeysBelow(db.comments, n)
    requires ChronologicalTasks(db.tasks) && ChronologicalComments(db.comments)
    requires CommentsReferenceUsers(db.comments, db.users)
    ensures v.task == TaskResponse(db, n, id)
    ensures v.comments == CommentList(db, n, id)
    ensures |v.subtasks| == |SubtaskIds(db.tasks, n, id)|
    ensures forall i :: 0 <= i < |v.subtasks| ==> v.subtasks[i] == TaskResponse(db, n, SubtaskIds(db.tasks, n, id)[i])
  {
    var subs := SubtaskIds(db.tasks, n, id);
    TaskDetail(TaskResponse(db, n, id), CommentList(db, n, id),
               seq(|subs|, i requires 0 <= i < |subs| => TaskResponse(db, n, subs[i])))
  }

  /** The body of `index`: every listed task in its detailed form. */
  function IndexResponse(db: Db, n: nat, couple: Id, p: IndexParams): (r: seq<TaskDetail>)
    requires KeysBelow(db.tasks, n) && KeysBelow(db.comments, n)
    requires ChronologicalTasks(db.tasks) && ChronologicalComments(db.comments)
    requires CommentsReferenceUsers(db.comments, db.users)
    ensures |r| == |IndexIds(db.tasks, n, couple, p)|
    ensures forall i :: 0 <= i < |r| ==> r[i] == TaskDetailResponse(db, n, IndexIds(db.tasks, n, couple, p)[i])
  {
    var ids := IndexIds(db.tasks, n, couple, p);
    seq(|ids|, i requires 0 <= i < |ids| => TaskDetailResponse(db, n, ids[i]))
  }

  /** The i-th rendered subtask is the i-th direct subtask, with its parent and creation time. */
  lemma SubtaskViewsFollowIds(db: Db, n: nat, id: Id)
    requires id in db.tasks
    requires KeysBelow(db.tasks, n) && KeysBelow(db.comments, n)
    requires ChronologicalTasks(db.tasks) && ChronologicalComments(db.comments)
    requires CommentsReferenceUsers(db.comments, db.users)
    ensures forall i :: 0 <= i < |TaskDetailResponse(db, n, id).subtasks| ==>
      var s := SubtaskIds(db.tasks, n, id)[i];
      TaskDetailResponse(db, n, id).subtasks[i].id == s
      && TaskDetailResponse(db, n, id).subtasks[i].parentId == Some(id)
      && TaskDetailResponse(db, n, id).subtasks[i].createdAt == db.tasks[s].createdAt
  {
    var subs := SubtaskIds(db.tasks, n, id);
    var v := TaskDetailResponse(db, n, id).subtasks;
    forall i | 0 <= i < |v|
      ensures v[i].id == subs[i] && v[i].parentId == Some(id) && v[i].createdAt == db.tasks[subs[i]].createdAt
    {
      var s := subs[i];
      assert s in subs;
      var w := TaskResponse(db, n, s);
      assert v[i] == w;
    }
  }

  /** The detailed view lists exactly the direct subtasks, oldest first, with parent `id`. */
  lemma DetailListsSubtasks(db: Db, n: nat, id: Id)
    requires id in db.tasks
    requires KeysBelow(db.tasks, n) && KeysBelow(db.comments, n)
    requires ChronologicalTasks(db.tasks) && ChronologicalComments(db.comments)
    requires CommentsReferenceUsers(db.comments, db.users)
    ensures forall t :: t in db.tasks && db.tasks[t].parentId == Some(id) <==>
      exists i :: 0 <= i < |TaskDetailResponse(db, n, id).subtasks| && TaskDetailResponse(db, n, id).subtasks[i].id == t
    ensures forall i :: 0 <= i < |TaskDetailResponse(db, n, id).subtasks| ==>
      TaskDetailResponse(db, n, id).subtasks[i].parentId == Some(id)
    ensures forall i, j :: 0 <= i < j < |TaskDetailResponse(db, n, id).subtasks| ==>
      TaskDetailResponse(db, n, id).subtasks[i].createdAt < TaskDetailResponse(db, n, id).subtasks[j].createdAt
  {
    var subs := SubtaskIds(db.tasks, n, id);
    var v := TaskDetailResponse(db, n, id).subtasks;
    SubtaskViewsFollowIds(db, n, id);
    forall t | t in db.tasks && db.tasks[t].parentId == Some(id)
      ensures exists i :: 0 <= i < |v| && v[i].id == t
    {
      var i :| 0 <= i < |subs| && subs[i] == t;
      assert v[i].id == t;
    }
    forall i, j | 0 <= i < j < |v|
      ensures v[i].createdAt < v[j].createdAt
    {
      assert db.tasks[subs[i]].createdAt < db.tasks[subs[j]].createdAt;
    }
  }
}

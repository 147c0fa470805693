/**
 * The invariant every reachable database state keeps: the schema's
 * constraints, the models' validations of stored rows, the two-member bound on
 * couples, and the link between ids and creation times. One lemma per write
 * the actions perform shows the write keeps it.
 */
module Integrity {
  import opened Common
  import opened Schema
  import opened UserModel
  import opened TaskModel
  import opened CoupleModel
  import opened CommentModel

  // Every stored row passes its model's validations.

  ghost predicate ValidUsers(users: map<Id, User>)
  {
    forall u :: u in users ==> ValidUser(users[u])
  }

  ghost predicate WellFormedCodes(couples: map<Id, Couple>)
  {
    forall c :: c in couples ==> WellFormedCode(couples[c].inviteCode)
  }

  ghost predicate ValidTasks(tasks: map<Id, Task>)
  {
    forall t :: t in tasks ==> ValidTask(tasks[t])
  }

  ghost predicate ValidComments(comments: map<Id, Comment>)
  {
    forall c :: c in comments ==> ValidComment(comments[c])
  }

  /** No couple has more than two members. */
  ghost predicate AtMostTwoMembers(users: map<Id, User>, couples: map<Id, Couple>)
  {
    forall c :: c in couples ==> |Members(users, c)| <= 2
  }

  /** No stored timestamp of a task lies after the clock. */
  ghost predicate TasksNotAfter(tasks: map<Id, Task>, clock: Time)
  {
    forall t :: t in tasks ==>
      && tasks[t].createdAt <= clock && tasks[t].updatedAt <= clock
      && (tasks[t].completedAt.Some? ==> tasks[t].completedAt.value <= clock)
  }

  ghost predicate CommentsNotAfter(comments: map<Id, Comment>, clock: Time)
  {
    forall c :: c in comments ==> comments[c].createdAt <= clock
  }

  /** Tasks with smaller ids were created earlier. */
  ghost predicate ChronologicalTasks(tasks: map<Id, Task>)
  {
    forall a, b :: a in tasks && b in tasks && a < b ==> tasks[a].createdAt < tasks[b].createdAt
  }

  ghost predicate Consistent(db: Db, clock: Time, next: Id)
  {
    && ForeignKeys(db)
    && UniqueIndexes(db)
    && ValidUsers(db.users) && WellFormedCodes(db.couples)
    && ValidTasks(db.tasks) && ValidComments(db.comments)
    && AtMostTwoMembers(db.users, db.couples)
    && KeysBelow(db.users, next) && KeysBelow(db.couples, next)
    && KeysBelow(db.tasks, next) && KeysBelow(db.comments, next)
    && TasksNotAfter(db.tasks, clock) && CommentsNotAfter(db.comments, clock)
    && ChronologicalTasks(db.tasks) && ChronologicalComments(db.comments)
  }

  /** The empty database of a fresh store. */
  lemma EmptyIsConsistent()
    ensures Consistent(Db(map[], map[], map[], map[]), 0, 0)
  {
  }

  /** A couple inserted with a fresh id and an unused well-formed code starts with no members. */
  lemma {:induction false} InsertCoupleKeeps(db: Db, clock: Time, next: Id, code: string)
    requires Consistent(db, clock, next)
    requires WellFormedCode(code) && !InviteCodeTaken(db.couples, code)
    ensures Consistent(db.(couples := db.couples[next := Couple(None, code)]), clock, next + 1)
    ensures Members(db.users, next) == {}
  {
    var couples := db.couples[next := Couple(None, code)];
    assert Members(db.users, next) == {};
    assert AtMostTwoMembers(db.users, couples);
    assert UsersReferenceCouples(db.users, couples);
    assert TasksReferenceCouples(db.tasks, couples);
    assert InviteCodesUnique(couples);
    assert WellFormedCodes(couples);
  }

  lemma {:induction false} InsertUserKeepsMembers(users: map<Id, User>, couples: map<Id, Couple>, next: Id, u: User)
    requires AtMostTwoMembers(users, couples) && KeysBelow(users, next)
    requires u.coupleId.Some? && Members(users, u.coupleId.value) == {}
    ensures AtMostTwoMembers(users[next := u], couples)
    ensures Members(users[next := u], u.coupleId.value) == {next}
  {
    forall c | c in couples
      ensures |Members(users[next := u], c)| <= 2
    {
      if c == u.coupleId.value {
        assert Members(users[next := u], c) == {next};
      } else {
        assert Members(users[next := u], c) == Members(users, c);
      }
    }
    assert Members(users[next := u], u.coupleId.value) == {next};
  }

  /** A valid user with a fresh id and an unused email, in a couple that had no members. */
  lemma {:induction false} InsertUserKeeps(db: Db, clock: Time, next: Id, u: User)
    requires Consistent(db, clock, next)
    requires ValidUser(u) && !EmailTaken(db.users, u.email)
    requires u.coupleId.Some? && u.coupleId.value in db.couples
    requires Members(db.users, u.coupleId.value) == {}
    ensures Consistent(db.(users := db.users[next := u]), clock, next + 1)
    ensures Members(db.users[next := u], u.coupleId.value) == {next}
  {
    var users := db.users[next := u];
    InsertUserKeepsMembers(db.users, db.couples, next, u);
    assert UsersReferenceCouples(users, db.couples);
    assert TasksReferenceAssignees(db.tasks, users);
    assert CommentsReferenceUsers(db.comments, users);
    assert EmailsUnique(users);
    assert ValidUsers(users);
  }

  lemma {:induction false} MoveUserKeepsMembers(users: map<Id, User>, couples: map<Id, Couple>, me: Id, target: Id)
    requires AtMostTwoMembers(users, couples)
    requires me in users && |Members(users, target)| < 2
    ensures AtMostTwoMembers(users[me := users[me].(coupleId := Some(target), color := Some(Green))], couples)
    ensures |Members(users[me := users[me].(coupleId := Some(target), color := Some(Green))], target)| <= 2
  {
    var users' := users[me := users[me].(coupleId := Some(target), color := Some(Green))];
    forall c | c in couples || c == target
      ensures |Members(users', c)| <= 2
    {
      if c == target {
        assert Members(users', c) <= Members(users, c) + {me};
        SubsetCardinality(Members(users', c), Members(users, c) + {me});
      } else {
        assert Members(users', c) <= Members(users, c);
        SubsetCardinality(Members(users', c), Members(users, c));
      }
    }
  }

  /** The write `join` makes: the caller moves to a couple with fewer than two members, colour green. */
  lemma {:induction false} MoveUserKeeps(db: Db, clock: Time, next: Id, me: Id, target: Id)
    requires Consistent(db, clock, next)
    requires me in db.users && target in db.couples
    requires |Members(db.users, target)| < 2
    ensures Consistent(db.(users := db.users[me := db.users[me].(coupleId := Some(target), color := Some(Green))]), clock, next)
    ensures |Members(db.users[me := db.users[me].(coupleId := Some(target), color := Some(Green))], target)| <= 2
  {
    var users := db.users[me := db.users[me].(coupleId := Some(target), color := Some(Green))];
    MoveUserKeepsMembers(db.users, db.couples, me, target);
    assert UsersReferenceCouples(users, db.couples);
    assert TasksReferenceAssignees(db.tasks, users);
    assert CommentsReferenceUsers(db.comments, users);
    assert EmailsUnique(users);
    assert ValidUsers(users);
  }

  /** Destroying task subtrees leaves no reference to a destroyed row. */
  lemma {:induction false} DestroyTasksKeeps(db: Db, clock: Time, next: Id, roots: set<Id>)
    requires Consistent(db, clock, next)
    requires roots <= db.tasks.Keys
    ensures Consistent(DestroyTasks(db, roots), clock, next)
  {
    var r := DestroyTasks(db, roots);
    forall t | t in r.tasks && r.tasks[t].parentId.Some?
      ensures r.tasks[t].parentId.value in r.tasks
    {
      assert db.tasks[t].parentId.value in db.tasks;
    }
    forall c | c in r.comments
      ensures r.comments[c].taskId in r.tasks
    {
      assert db.comments[c].taskId in db.tasks;
    }
    assert TasksReferenceParents(r.tasks);
    assert CommentsReferenceTasks(r.comments, r.tasks);
    assert TasksReferenceCouples(r.tasks, r.couples);
    assert TasksReferenceAssignees(r.tasks, r.users);
    assert CommentsReferenceUsers(r.comments, r.users);
    assert ValidTasks(r.tasks) && ValidComments(r.comments);
    assert TasksNotAfter(r.tasks, clock) && CommentsNotAfter(r.comments, clock);
    assert ChronologicalTasks(r.tasks) && ChronologicalComments(r.comments);
  }

  lemma {:induction false} RemoveUserKeepsMembers(users: map<Id, User>, couples: map<Id, Couple>, u: Id)
    requires AtMostTwoMembers(users, couples)
    ensures AtMostTwoMembers(users - {u}, couples)
  {
    forall c | c in couples
      ensures |Members(users - {u}, c)| <= 2
    {
      SubsetCardinality(Members(users - {u}, c), Members(users, c));
    }
  }

  /** Keeping part of the comments keeps every property of the comments table. */
  lemma {:induction false} CommentSubsetKeeps(comments: map<Id, Comment>, kept: map<Id, Comment>,
                                              tasks: map<Id, Task>, clock: Time, next: Id)
    requires CommentsReferenceTasks(comments, tasks) && ValidComments(comments)
    requires CommentsNotAfter(comments, clock) && ChronologicalComments(comments) && KeysBelow(comments, next)
    requires forall c :: c in kept ==> c in comments && kept[c] == comments[c]
    ensures CommentsReferenceTasks(kept, tasks) && ValidComments(kept)
    ensures CommentsNotAfter(kept, clock) && ChronologicalComments(kept) && KeysBelow(kept, next)
  {
  }

  lemma {:induction false} RemoveUserKeepsReferences(users: map<Id, User>, couples: map<Id, Couple>,
                                                     tasks: map<Id, Task>, comments: map<Id, Comment>,
                                                     kept: map<Id, Comment>, u: Id)
    requires UsersReferenceCouples(users, couples) && TasksReferenceAssignees(tasks, users)
    requires CommentsReferenceUsers(comments, users)
    requires forall t :: t in tasks ==> tasks[t].assigneeId != Some(u)
    requires forall c :: c in kept ==> c in comments && kept[c] == comments[c] && kept[c].userId != u
    ensures UsersReferenceCouples(users - {u}, couples) && TasksReferenceAssignees(tasks, users - {u})
    ensures CommentsReferenceUsers(kept, users - {u})
  {
  }

  /** Destroying a user that no task names as assignee, with the user's comments. */
  lemma {:induction false} DestroyUserKeeps(db: Db, clock: Time, next: Id, u: Id)
    requires Consistent(db, clock, next)
    requires DestroyUser(db, u).Some?
    ensures Consistent(DestroyUser(db, u).value, clock, next)
  {
    var r := DestroyUser(db, u).value;
    assert forall t :: t in db.tasks ==> db.tasks[t].assigneeId != Some(u);
    RemoveUserKeepsMembers(db.users, db.couples, u);
    CommentSubsetKeeps(db.comments, r.comments, db.tasks, clock, next);
    RemoveUserKeepsReferences(db.users, db.couples, db.tasks, db.comments, r.comments, u);
    assert EmailsUnique(r.users) && ValidUsers(r.users);
  }

  /** With no members, nullifying the couple's users changes nothing. */
  lemma DestroyCoupleKeepsUsers(db: Db, c: Id)
    requires Members(db.users, c) == {}
    ensures DestroyCouple(db, c).users == db.users
  {
    var r := DestroyCouple(db, c);
    forall u | u in db.users
      ensures r.users[u] == db.users[u]
    {
      assert u !in Members(db.users, c);
    }
  }

  /** Destroying a couple without members keeps the invariant. */
  lemma {:induction false} DestroyCoupleKeeps(db: Db, clock: Time, next: Id, c: Id)
    requires Consistent(db, clock, next)
    requires Members(db.users, c) == {}
    ensures DestroyCouple(db, c).users == db.users
    ensures Consistent(DestroyCouple(db, c), clock, next)
  {
    DestroyCoupleKeepsUsers(db, c);
    var roots := CoupleTasks(db.tasks, c);
    DestroyTasksKeeps(db, clock, next, roots);
    var cleared := DestroyTasks(db, roots);
    var r := DestroyCouple(db, c);
    assert r == cleared.(couples := db.couples - {c});
    forall u | u in r.users && r.users[u].coupleId.Some?
      ensures r.users[u].coupleId.value in r.couples
    {
      assert u !in Members(db.users, c);
    }
    assert UsersReferenceCouples(r.users, r.couples);
    assert TasksReferenceCouples(r.tasks, r.couples);
    assert InviteCodesUnique(r.couples) && WellFormedCodes(r.couples);
    assert AtMostTwoMembers(r.users, r.couples);
  }

  lemma {:induction false} InsertTaskKeepsOrder(tasks: map<Id, Task>, clock: Time, next: Id, t: Task, now: Time)
    requires ChronologicalTasks(tasks) && TasksNotAfter(tasks, clock) && KeysBelow(tasks, next)
    requires clock < now && t.createdAt == now && t.updatedAt == now && t.completedAt == None
    ensures ChronologicalTasks(tasks[next := t]) && TasksNotAfter(tasks[next := t], now)
  {
    var r := tasks[next := t];
    forall a, b | a in r && b in r && a < b
      ensures r[a].createdAt < r[b].createdAt
    {
      if b == next {
        assert a in tasks;
      }
    }
  }

  /** A valid task with a fresh id, stamped now, whose references exist. */
  lemma {:induction false} InsertTaskKeeps(db: Db, clock: Time, next: Id, t: Task, now: Time)
    requires Consistent(db, clock, next)
    requires clock < now
    requires ValidTask(t) && TaskReferencesExist(db, t)
    requires t.createdAt == now && t.updatedAt == now && t.completedAt == None
    ensures Consistent(db.(tasks := db.tasks[next := t]), now, next + 1)
  {
    var tasks := db.tasks[next := t];
    InsertTaskKeepsOrder(db.tasks, clock, next, t, now);
    assert TasksReferenceCouples(tasks, db.couples);
    assert TasksReferenceAssignees(tasks, db.users);
    assert TasksReferenceParents(tasks);
    assert CommentsReferenceTasks(db.comments, tasks);
    assert ValidTasks(tasks);
    assert CommentsNotAfter(db.comments, now);
  }

  lemma {:induction false} UpdateTaskKeepsOrder(tasks: map<Id, Task>, clock: Time, id: Id, t: Task, now: Time)
    requires ChronologicalTasks(tasks) && TasksNotAfter(tasks, clock)
    requires clock <= now && id in tasks
    requires t.createdAt == tasks[id].createdAt && t.updatedAt <= now
    requires t.completedAt.Some? ==> t.completedAt.value <= now
    ensures ChronologicalTasks(tasks[id := t]) && TasksNotAfter(tasks[id := t], now)
  {
  }

  /**
   * Rewriting a stored task with a valid row whose references exist and whose
   * creation time is kept.
   */
  lemma {:induction false} UpdateTaskKeeps(db: Db, clock: Time, next: Id, id: Id, t: Task, now: Time)
    requires Consistent(db, clock, next)
    requires clock <= now
    requires id in db.tasks
    requires ValidTask(t) && TaskReferencesExist(db, t)
    requires t.createdAt == db.tasks[id].createdAt && t.updatedAt <= now
    requires t.completedAt.Some? ==> t.completedAt.value <= now
    ensures Consistent(db.(tasks := db.tasks[id := t]), now, next)
  {
    UpdateTaskKeepsOrder(db.tasks, clock, id, t, now);
    UpdateTaskKeepsReferences(db.tasks, db.couples, db.users, db.comments, id, t);
    assert CommentsNotAfter(db.comments, now);
  }

  lemma {:induction false} UpdateTaskKeepsReferences(tasks: map<Id, Task>, couples: map<Id, Couple>,
                                                     users: map<Id, User>, comments: map<Id, Comment>, id: Id, t: Task)
    requires TasksReferenceCouples(tasks, couples) && TasksReferenceAssignees(tasks, users)
    requires TasksReferenceParents(tasks) && CommentsReferenceTasks(comments, tasks) && ValidTasks(tasks)
    requires id in tasks && ValidTask(t) && t.coupleId in couples
    requires t.assigneeId.Some? ==> t.assigneeId.value in users
    requires t.parentId.Some? ==> t.parentId.value in tasks
    ensures TasksReferenceCouples(tasks[id := t], couples) && TasksReferenceAssignees(tasks[id := t], users)
    ensures TasksReferenceParents(tasks[id := t]) && CommentsReferenceTasks(comments, tasks[id := t])
    ensures ValidTasks(tasks[id := t])
  {
  }

  lemma {:induction false} InsertCommentKeepsOrder(comments: map<Id, Comment>, clock: Time, next: Id, c: Comment, now: Time)
    requires ChronologicalComments(comments) && CommentsNotAfter(comments, clock) && KeysBelow(comments, next)
    requires clock < now && c.createdAt == now
    ensures ChronologicalComments(comments[next := c]) && CommentsNotAfter(comments[next := c], now)
  {
    var r := comments[next := c];
    forall a, b | a in r && b in r && a < b
      ensures r[a].createdAt < r[b].createdAt
    {
      if b == next {
        assert a in comments;
      }
    }
  }

  /** A valid comment with a fresh id, stamped now, whose task and author exist. */
  lemma {:induction false} InsertCommentKeeps(db: Db, clock: Time, next: Id, c: Comment, now: Time)
    requires Consistent(db, clock, next)
    requires clock < now
    requires CommentErrors(db, c) == [] && c.createdAt == now
    ensures Consistent(db.(comments := db.comments[next := c]), now, next + 1)
  {
    InsertCommentKeepsOrder(db.comments, clock, next, c, now);
    InsertCommentKeepsReferences(db.comments, db.tasks, db.users, next, c);
    assert TasksNotAfter(db.tasks, now);
  }

  lemma {:induction false} InsertCommentKeepsReferences(comments: map<Id, Comment>, tasks: map<Id, Task>,
                                                        users: map<Id, User>, next: Id, c: Comment)
    requires CommentsReferenceTasks(comments, tasks) && CommentsReferenceUsers(comments, users)
    requires ValidComments(comments) && KeysBelow(comments, next)
    requires c.taskId in tasks && c.userId in users && ValidComment(c)
    ensures CommentsReferenceTasks(comments[next := c], tasks) && CommentsReferenceUsers(comments[next := c], users)
    ensures ValidComments(comments[next := c]) && KeysBelow(comments[next := c], next + 1)
  {
  }

  /** Removing one comment: nothing references comments. */
  lemma {:induction false} DestroyCommentKeeps(db: Db, clock: Time, next: Id, id: Id)
    requires Consistent(db, clock, next)
    ensures Consistent(db.(comments := db.comments - {id}), clock, next)
  {
    var comments := db.comments - {id};
    assert CommentsReferenceTasks(comments, db.tasks);
    assert CommentsReferenceUsers(comments, db.users);
    assert ValidComments(comments);
    assert CommentsNotAfter(comments, clock);
    assert ChronologicalComments(comments);
  }
}

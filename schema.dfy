/**
 * The four tables of backend/db/schema.rb as record types, and the table
 * constraints (foreign keys, unique indexes) as predicates over a database value.
 * NOT NULL columns are plain fields; nullable ones are `Option`s.
 */
module Schema {
  import opened Common

  /** `users.color`, an enum over the strings "blue" and "green" (nullable). */
  datatype Color = Blue | Green

  /**
   * A row of `users`. `credential` stands for `password_digest`: hashing is
   * not modelled, see UserModel.Authenticates.
   */
  datatype User = User(email: string, name: string, credential: string,
                       coupleId: Option<Id>, color: Option<Color>)

  /** A row of `couples`. */
  datatype Couple = Couple(name: Option<string>, inviteCode: string)

  /** A row of `tasks`; `dueDate` is a day number. */
  datatype Task = Task(coupleId: Id, assigneeId: Option<Id>, title: string,
                       description: Option<string>, category: Option<string>,
                       priority: Option<int>, dueDate: Option<int>,
                       completedAt: Option<Time>, createdAt: Time, updatedAt: Time,
                       parentId: Option<Id>)

  /** A row of `comments`. */
  datatype Comment = Comment(taskId: Id, userId: Id, content: string, createdAt: Time)

  /** The whole database. */
  datatype Db = Db(users: map<Id, User>, couples: map<Id, Couple>,
                   tasks: map<Id, Task>, comments: map<Id, Comment>)

  // Foreign keys (the add_foreign_key lines at the end of the schema), each
  // over the tables it relates.

  ghost predicate UsersReferenceCouples(users: map<Id, User>, couples: map<Id, Couple>)
  {
    forall u :: u in users && users[u].coupleId.Some? ==> users[u].coupleId.value in couples
  }

  ghost predicate TasksReferenceCouples(tasks: map<Id, Task>, couples: map<Id, Couple>)
  {
    forall t :: t in tasks ==> tasks[t].coupleId in couples
  }

  ghost predicate TasksReferenceAssignees(tasks: map<Id, Task>, users: map<Id, User>)
  {
    forall t :: t in tasks && tasks[t].assigneeId.Some? ==> tasks[t].assigneeId.value in users
  }

  ghost predicate TasksReferenceParents(tasks: map<Id, Task>)
  {
    forall t :: t in tasks && tasks[t].parentId.Some? ==> tasks[t].parentId.value in tasks
  }

  ghost predicate CommentsReferenceTasks(comments: map<Id, Comment>, tasks: map<Id, Task>)
  {
    forall c :: c in comments ==> comments[c].taskId in tasks
  }

  ghost predicate CommentsReferenceUsers(comments: map<Id, Comment>, users: map<Id, User>)
  {
    forall c :: c in comments ==> comments[c].userId in users
  }

  /** No row references a row that does not exist. */
  ghost predicate ForeignKeys(db: Db)
  {
    && UsersReferenceCouples(db.users, db.couples)
    && TasksReferenceCouples(db.tasks, db.couples)
    && TasksReferenceAssignees(db.tasks, db.users)
    && TasksReferenceParents(db.tasks)
    && CommentsReferenceTasks(db.comments, db.tasks)
    && CommentsReferenceUsers(db.comments, db.users)
  }

  // Unique indexes, under the tables' collation.

  ghost predicate EmailsUnique(users: map<Id, User>)
  {
    forall a, b :: a in users && b in users && a != b ==> !SameText(users[a].email, users[b].email)
  }

  ghost predicate InviteCodesUnique(couples: map<Id, Couple>)
  {
    forall a, b :: a in couples && b in couples && a != b ==> !SameText(couples[a].inviteCode, couples[b].inviteCode)
  }

  ghost predicate UniqueIndexes(db: Db)
  {
    EmailsUnique(db.users) && InviteCodesUnique(db.couples)
  }

  /** Whether a task row's optional references point at existing rows (checked by the database on write). */
  predicate TaskReferencesExist(db: Db, t: Task)
  {
    && t.coupleId in db.couples
    && (t.assigneeId.Some? ==> t.assigneeId.value in db.users)
    && (t.parentId.Some? ==> t.parentId.value in db.tasks)
  }

  /** Whether some couple already holds this invite code, up to case (the unique index would reject a second). */
  predicate InviteCodeTaken(couples: map<Id, Couple>, code: string)
  {
    exists c :: c in couples && SameText(couples[c].inviteCode, code)
  }

  /** Whether some user already has this email, up to case. */
  predicate EmailTaken(users: map<Id, User>, email: string)
  {
    exists u :: u in users && SameText(users[u].email, email)
  }
}

/**
 * The Rails backend as one in-memory store: the four tables, the session's
 * user id, the clock and the id counter, with one method per API action. Every
 * action keeps the store invariant Integrity.Consistent.
 */
module Backend {
  import opened Common
  import opened Schema
  import opened UserModel
  import opened TaskModel
  import opened CoupleModel
  import opened CommentModel
  import opened Integrity
  import opened AppController
  import opened AuthApi
  import opened CouplesApi
  import opened TasksApi
  import opened CommentsApi

  class Store {
    var users: map<Id, User>
    var couples: map<Id, Couple>
    var tasks: map<Id, Task>
    var comments: map<Id, Comment>
    /** `session[:user_id]`. */
    var session: Option<Id>
    /** The latest time written into a row. */
    var clock: Time
    /** The next primary key to hand out (one counter for all tables). */
    var nextId: nat

    function State(): Db
      reads this
    {
      Db(users, couples, tasks, comments)
    }

    ghost predicate Valid()
      reads this
    {
      Consistent(State(), clock, nextId)
    }

    /** `current_user`. */
    function Caller(): Option<Id>
      reads this
    {
      CurrentUser(users, session)
    }

    /** `current_couple`. */
    function CallerCouple(): Option<Id>
      reads this
    {
      CurrentCouple(State(), session)
    }

    /** An empty database and no session. */
    constructor()
      ensures Valid()
      ensures State() == Db(map[], map[], map[], map[]) && session == None
    {
      users, couples, tasks, comments := map[], map[], map[], map[];
      session, clock, nextId := None, 0, 0;
      EmptyIsConsistent();
    }

    /** Writes a database value, keeping the session. */
    method Commit(db: Db, time: Time, next: nat)
      requires Consistent(db, time, next)
      modifies this
      ensures State() == db && clock == time && nextId == next && session == old(session)
      ensures Valid()
    {
      users, couples, tasks, comments := db.users, db.couples, db.tasks, db.comments;
      clock, nextId := time, next;
    }

    // ---- AuthController ----

    /**
     * `signup`: `Couple.create!` runs first, so a couple exists even when the
     * user is then refused; an invite code already present makes that create
     * raise, and nothing is written.
     */
    method Signup(p: SignupParams, raw: string) returns (r: Result<UserView>)
      requires Valid() && RandomAlphanumeric(raw)
      modifies this
      ensures Valid()
      ensures tasks == old(tasks) && comments == old(comments) && clock == old(clock)
      ensures InviteCodeTaken(old(couples), GenerateInviteCode(raw)) ==> r == Fail(ServerError) && unchanged(this)
      ensures !InviteCodeTaken(old(couples), GenerateInviteCode(raw)) ==>
        && couples == old(couples)[old(nextId) := Couple(None, GenerateInviteCode(raw))]
        && (SignupErrors(old(users), p) != [] ==>
              && r == Fail(Invalid(SignupErrors(old(users), p)))
              && users == old(users) && session == old(session) && nextId == old(nextId) + 1
              && Members(users, old(nextId)) == {})
        && (SignupErrors(old(users), p) == [] ==>
              && users == old(users)[old(nextId) + 1 := NewUser(p, old(nextId))]
              && session == Some(old(nextId) + 1) && nextId == old(nextId) + 2
              && Members(users, old(nextId)) == {old(nextId) + 1}
              && r.Ok? && r.value == UserResponse(State(), nextId, old(nextId) + 1)
              && r.value.color == Some(Blue) && r.value.partner == None)
    {
      var code := GenerateInviteCode(raw);
      if InviteCodeTaken(couples, code) {
        return Fail(ServerError);
      }
      var couple := nextId;
      InsertCoupleKeeps(State(), clock, nextId, code);
      Commit(State().(couples := couples[couple := Couple(None, code)]), clock, nextId + 1);
      var errors := SignupErrors(users, p);
      if errors != [] {
        return Fail(Invalid(errors));
      }
      var user := NewUser(p, couple);
      SavedUserIsValid(users, p, couple);
      InsertUserKeeps(State(), clock, nextId, user);
      Commit(State().(users := users[nextId := user]), clock, nextId + 1);
      session := Some(couple + 1);
      r := Ok(UserResponse(State(), nextId, couple + 1));
    }

    /** `login`: an unknown email and a wrong password end alike, and leave the session alone. */
    method Login(email: Option<string>, password: Option<string>) returns (r: Result<UserView>)
      requires Valid()
      modifies this
      ensures Valid() && State() == old(State()) && clock == old(clock) && nextId == old(nextId)
      ensures var found := FindByEmail(old(users), old(nextId), email);
        if found.Some? && Authenticates(old(users)[found.value], password)
        then session == found && r == Ok(UserResponse(State(), nextId, found.value))
        else session == old(session) && r == Fail(Unauthorized)
    {
      var found := FindByEmail(users, nextId, email);
      if found.Some? && Authenticates(users[found.value], password) {
        session := found;
        r := Ok(UserResponse(State(), nextId, found.value));
      } else {
        r := Fail(Unauthorized);
      }
    }

    /** `logout`: behind the authentication gate. */
    method Logout() returns (r: Result<string>)
      requires Valid()
      modifies this
      ensures Valid() && State() == old(State()) && clock == old(clock) && nextId == old(nextId)
      ensures old(Caller()).None? ==> r == Fail(Unauthorized) && session == old(session)
      ensures old(Caller()).Some? ==> r == Ok("Logged out successfully") && session == None
    {
      if Caller().None? {
        return Fail(Unauthorized);
      }
      session := None;
      r := Ok("Logged out successfully");
    }

    /** `me`. */
    method Me() returns (r: Result<UserView>)
      requires Valid()
      ensures Caller().None? ==> r == Fail(Unauthorized)
      ensures Caller().Some? ==> r == Ok(UserResponse(State(), nextId, Caller().value))
    {
      if Caller().None? {
        return Fail(Unauthorized);
      }
      r := Ok(UserResponse(State(), nextId, Caller().value));
    }

    // ---- CouplesController ----

    /** `join`, step by step as the controller runs it. */
    method Join(code: Option<string>) returns (r: Result<JoinView>)
      requires Valid()
      modifies this
      ensures Valid() && session == old(session) && clock == old(clock) && nextId == old(nextId)
      ensures old(Caller()).None? ==> r == Fail(Unauthorized) && unchanged(this)
      ensures old(Caller()).Some? ==>
        Joined(r, State()) == JoinOutcome(old(State()), old(nextId), old(Caller()).value, code)
    {
      if Caller().None? {
        return Fail(Unauthorized);
      }
      var me := Caller().value;
      ghost var before := State();
      var target := FindByCode(couples, nextId, code);
      if target.None? {
        return Fail(NotFound);
      }
      if |Members(users, target.value)| >= 2 {
        return Fail(Invalid([CoupleFull]));
      }
      if users[me].coupleId == target {
        return Fail(Invalid([AlreadyMember]));
      }
      var previous := users[me].coupleId;
      MoveUserKeeps(State(), clock, nextId, me, target.value);
      Commit(MoveUser(State(), me, target.value), clock, nextId);
      if previous.Some? && previous.value in couples && Members(users, previous.value) == {} {
        if DestroyFails(State(), previous.value) {
          return Fail(ServerError);
        }
        DestroyCoupleKeeps(State(), clock, nextId, previous.value);
        Commit(DestroyCouple(State(), previous.value), clock, nextId);
      }
      r := Ok(JoinReply(State(), nextId, me, target.value));
    }

    /** `show`. */
    method ShowCouple() returns (r: Result<CoupleView>)
      requires Valid()
      ensures Caller().None? ==> r == Fail(Unauthorized)
      ensures Caller().Some? && CallerCouple().None? ==> r == Fail(NotFound)
      ensures CallerCouple().Some? ==> r == Ok(CoupleResponse(State(), nextId, CallerCouple().value))
    {
      if Caller().None? {
        return Fail(Unauthorized);
      }
      if CallerCouple().None? {
        return Fail(NotFound);
      }
      r := Ok(CoupleResponse(State(), nextId, CallerCouple().value));
    }

    // ---- TasksController ----

    /** `index`. */
    method ListTasks(p: IndexParams) returns (r: Result<seq<TaskDetail>>)
      requires Valid()
      ensures Caller().None? ==> r == Fail(Unauthorized)
      ensures Caller().Some? && CallerCouple().None? ==> r == Fail(ServerError)
      ensures CallerCouple().Some? ==> r.Ok?
      ensures r.Ok? ==> CallerCouple().Some? && r.value == IndexResponse(State(), nextId, CallerCouple().value, p)
    {
      if Caller().None? {
        return Fail(Unauthorized);
      }
      if CallerCouple().None? {
        return Fail(ServerError);
      }
      r := Ok(IndexResponse(State(), nextId, CallerCouple().value, p));
    }

    /** The `set_task` filter in front of `show`, `update`, `destroy` and `complete`. */
    method FindCallerTask(id: Id) returns (r: Result<Id>)
      requires Valid()
      ensures Caller().None? ==> r == Fail(Unauthorized)
      ensures Caller().Some? && CallerCouple().None? ==> r == Fail(ServerError)
      ensures CallerCouple().Some? && ScopedTask(tasks, CallerCouple().value, id).None? ==> r == Fail(NotFound)
      ensures r.Ok? <==> CallerCouple().Some? && ScopedTask(tasks, CallerCouple().value, id).Some?
      ensures r.Ok? ==> r.value == id && id in tasks && tasks[id].coupleId == CallerCouple().value
    {
      if Caller().None? {
        return Fail(Unauthorized);
      }
      if CallerCouple().None? {
        return Fail(ServerError);
      }
      if ScopedTask(tasks, CallerCouple().value, id).None? {
        return Fail(NotFound);
      }
      r := Ok(id);
    }

    /** `show`. */
    method ShowTask(id: Id) returns (r: Result<TaskDetail>)
      requires Valid()
      ensures Caller().None? ==> r == Fail(Unauthorized)
      ensures Caller().Some? && CallerCouple().None? ==> r == Fail(ServerError)
      ensures CallerCouple().Some? && ScopedTask(tasks, CallerCouple().value, id).None? ==> r == Fail(NotFound)
      ensures r.Fail? <==> CallerCouple().None? || ScopedTask(tasks, CallerCouple().value, id).None?
      ensures r.Ok? ==> id in tasks && r.value == TaskDetailResponse(State(), nextId, id)
    {
      var found := FindCallerTask(id);
      if found.Fail? {
        return Fail(found.error);
      }
      r := Ok(TaskDetailResponse(State(), nextId, id));
    }

    /** `create`: a valid task is attached to the caller's couple; an invalid one is not stored. */
    method CreateTask(p: TaskParams, now: Time) returns (r: Result<TaskView>)
      requires Valid() && clock < now
      modifies this
      ensures Valid() && session == old(session)
      ensures users == old(users) && couples == old(couples) && comments == old(comments)
      ensures old(Caller()).None? ==> r == Fail(Unauthorized)
      ensures old(Caller()).Some? && old(CallerCouple()).None? ==> r == Fail(ServerError)
      ensures old(CallerCouple()).Some? && TaskErrors(BuildTask(p, old(CallerCouple()).value, now), true) != [] ==>
        r == Fail(Invalid(TaskErrors(BuildTask(p, old(CallerCouple()).value, now), true)))
      ensures r.Fail? ==> unchanged(this)
      ensures r.Ok? ==> && old(CallerCouple()).Some?
                        && TaskErrors(BuildTask(p, old(CallerCouple()).value, now), true) == []
                        && tasks == old(tasks)[old(nextId) := BuildTask(p, old(CallerCouple()).value, now)]
                        && nextId == old(nextId) + 1 && clock == now
                        && r.value == TaskResponse(State(), nextId, old(nextId))
      ensures old(CallerCouple()).Some? && TaskErrors(BuildTask(p, old(CallerCouple()).value, now), true) == [] ==>
        if TaskReferencesExist(old(State()), BuildTask(p, old(CallerCouple()).value, now)) then r.Ok?
        else r == Fail(ServerError)
    {
      if Caller().None? {
        return Fail(Unauthorized);
      }
      if CallerCouple().None? {
        return Fail(ServerError);
      }
      var t := BuildTask(p, CallerCouple().value, now);
      var errors := TaskErrors(t, true);
      if errors != [] {
        return Fail(Invalid(errors));
      }
      if !TaskReferencesExist(State(), t) {
        return Fail(ServerError);
      }
      var id := nextId;
      InsertTaskKeeps(State(), clock, nextId, t, now);
      Commit(State().(tasks := tasks[id := t]), now, nextId + 1);
      r := Ok(TaskResponse(State(), nextId, id));
    }

    /**
     * `update`: a change that fails validation is refused and nothing is
     * written; assigning the same values writes nothing either.
     */
    method UpdateTask(id: Id, p: TaskParams, now: Time) returns (r: Result<TaskView>)
      requires Valid() && clock < now
      modifies this
      ensures Valid() && session == old(session) && nextId == old(nextId)
      ensures users == old(users) && couples == old(couples) && comments == old(comments)
      ensures r.Fail? ==> unchanged(this)
      ensures old(Caller()).None? ==> r == Fail(Unauthorized)
      ensures old(Caller()).Some? && old(CallerCouple()).None? ==> r == Fail(ServerError)
      ensures old(CallerCouple()).Some? && ScopedTask(old(tasks), old(CallerCouple()).value, id).None? ==> r == Fail(NotFound)
      ensures old(CallerCouple()).None? || ScopedTask(old(tasks), old(CallerCouple()).value, id).None? ==> r.Fail?
      ensures old(CallerCouple()).Some? && ScopedTask(old(tasks), old(CallerCouple()).value, id).Some?
              && TaskErrors(AssignTask(old(tasks)[id], p), true) != [] ==>
        r == Fail(Invalid(TaskErrors(AssignTask(old(tasks)[id], p), true)))
      ensures old(CallerCouple()).Some? && ScopedTask(old(tasks), old(CallerCouple()).value, id).Some?
              && TaskErrors(AssignTask(old(tasks)[id], p), true) == [] ==>
        if AssignTask(old(tasks)[id], p) == old(tasks)[id]
           || TaskReferencesExist(old(State()), AssignTask(old(tasks)[id], p)) then r.Ok?
        else r == Fail(ServerError)
      ensures r.Ok? ==> && id in old(tasks)
                        && TaskErrors(AssignTask(old(tasks)[id], p), true) == []
                        && tasks == old(tasks)[id := Saved(old(tasks)[id], AssignTask(old(tasks)[id], p), now)]
                        && r.value == TaskResponse(State(), nextId, id)
    {
      var found := FindCallerTask(id);
      if found.Fail? {
        return Fail(found.error);
      }
      var stored := tasks[id];
      var changed := AssignTask(stored, p);
      var errors := TaskErrors(changed, changed.coupleId in couples);
      if errors != [] {
        return Fail(Invalid(errors));
      }
      if changed == stored {
        return Ok(TaskResponse(State(), nextId, id));
      }
      if !TaskReferencesExist(State(), changed) {
        return Fail(ServerError);
      }
      var written := Saved(stored, changed, now);
      UpdateTaskKeeps(State(), clock, nextId, id, written, now);
      Commit(State().(tasks := tasks[id := written]), now, nextId);
      r := Ok(TaskResponse(State(), nextId, id));
    }

    /** `destroy`: the task goes with its comments and its whole subtree. */
    method DestroyTask(id: Id) returns (r: Result<NoContent>)
      requires Valid()
      modifies this
      ensures Valid() && session == old(session) && nextId == old(nextId) && clock == old(clock)
      ensures r.Fail? ==> unchanged(this)
      ensures old(Caller()).None? ==> r == Fail(Unauthorized)
      ensures old(Caller()).Some? && old(CallerCouple()).None? ==> r == Fail(ServerError)
      ensures old(CallerCouple()).Some? && ScopedTask(old(tasks), old(CallerCouple()).value, id).None? ==> r == Fail(NotFound)
      ensures old(CallerCouple()).None? || ScopedTask(old(tasks), old(CallerCouple()).value, id).None? ==> r.Fail?
      ensures old(CallerCouple()).Some? && ScopedTask(old(tasks), old(CallerCouple()).value, id).Some? ==>
        if Diverges(old(tasks), {id}) then r == Fail(ServerError)
        else r.Ok? && State() == DestroyTasks(old(State()), {id})
    {
      var found := FindCallerTask(id);
      if found.Fail? {
        return Fail(found.error);
      }
      if Diverges(tasks, {id}) {
        return Fail(ServerError);
      }
      DestroyTasksKeeps(State(), clock, nextId, {id});
      Commit(DestroyTasks(State(), {id}), clock, nextId);
      r := Ok(NoContent);
    }

    /** `complete`. */
    method CompleteTask(id: Id, completed: CompletedParam, now: Time) returns (r: Result<TaskView>)
      requires Valid() && clock < now
      modifies this
      ensures Valid() && session == old(session) && nextId == old(nextId)
      ensures users == old(users) && couples == old(couples) && comments == old(comments)
      ensures r.Fail? ==> unchanged(this)
      ensures old(Caller()).None? ==> r == Fail(Unauthorized)
      ensures old(Caller()).Some? && old(CallerCouple()).None? ==> r == Fail(ServerError)
      ensures old(CallerCouple()).Some? && ScopedTask(old(tasks), old(CallerCouple()).value, id).None? ==> r == Fail(NotFound)
      ensures r.Fail? <==> old(CallerCouple()).None? || ScopedTask(old(tasks), old(CallerCouple()).value, id).None?
      ensures r.Ok? ==> && id in old(tasks)
                        && tasks == old(tasks)[id := ApplyCompleted(old(tasks)[id], completed, now)]
                        && r.value == TaskResponse(State(), nextId, id)
    {
      var found := FindCallerTask(id);
      if found.Fail? {
        return Fail(found.error);
      }
      var stored := tasks[id];
      var written := ApplyCompleted(stored, completed, now);
      if written != stored {
        UpdateTaskKeeps(State(), clock, nextId, id, written, now);
        Commit(State().(tasks := tasks[id := written]), now, nextId);
      }
      r := Ok(TaskResponse(State(), nextId, id));
    }

    // ---- CommentsController ----

    /** `index`. */
    method ListComments(taskId: Id) returns (r: Result<seq<CommentView>>)
      requires Valid()
      ensures Caller().None? ==> r == Fail(Unauthorized)
      ensures Caller().Some? && CallerCouple().None? ==> r == Fail(ServerError)
      ensures CallerCouple().Some? && ScopedTask(tasks, CallerCouple().value, taskId).None? ==> r == Fail(NotFound)
      ensures r.Fail? <==> CallerCouple().None? || ScopedTask(tasks, CallerCouple().value, taskId).None?
      ensures r.Ok? ==> r.value == CommentList(State(), nextId, taskId)
    {
      if Caller().None? {
        return Fail(Unauthorized);
      }
      if CallerCouple().None? {
        return Fail(ServerError);
      }
      if ScopedTask(tasks, CallerCouple().value, taskId).None? {
        return Fail(NotFound);
      }
      r := Ok(CommentList(State(), nextId, taskId));
    }

    /** `create`: the author is the caller; only the content comes from the request. */
    method CreateComment(taskId: Id, content: Option<string>, now: Time) returns (r: Result<CommentView>)
      requires Valid() && clock < now
      modifies this
      ensures Valid() && session == old(session)
      ensures users == old(users) && couples == old(couples) && tasks == old(tasks)
      ensures r.Fail? ==> unchanged(this)
      ensures old(Caller()).None? ==> r == Fail(Unauthorized)
      ensures old(Caller()).Some? && old(CallerCouple()).None? ==> r == Fail(ServerError)
      ensures old(CallerCouple()).Some? && ScopedTask(old(tasks), old(CallerCouple()).value, taskId).None? ==> r == Fail(NotFound)
      ensures old(CallerCouple()).None? || ScopedTask(old(tasks), old(CallerCouple()).value, taskId).None? ==> r.Fail?
      ensures old(CallerCouple()).Some? && ScopedTask(old(tasks), old(CallerCouple()).value, taskId).Some? ==>
        if Blank(content.GetOr("")) then r == Fail(Invalid(["Content can't be blank"]))
        else && r.Ok?
             && comments == old(comments)[old(nextId) := Comment(taskId, old(session).value, content.value, now)]
             && nextId == old(nextId) + 1 && clock == now
             && r.value == CommentResponse(State(), old(nextId))
    {
      if Caller().None? {
        return Fail(Unauthorized);
      }
      if CallerCouple().None? {
        return Fail(ServerError);
      }
      if ScopedTask(tasks, CallerCouple().value, taskId).None? {
        return Fail(NotFound);
      }
      var c := Comment(taskId, Caller().value, content.GetOr(""), now);
      var errors := CommentErrors(State(), c);
      assert errors == if Blank(c.content) then ["Content can't be blank"] else [];
      if errors != [] {
        return Fail(Invalid(errors));
      }
      var id := nextId;
      InsertCommentKeeps(State(), clock, nextId, c, now);
      Commit(State().(comments := comments[id := c]), now, nextId + 1);
      r := Ok(CommentResponse(State(), id));
    }

    /** `destroy`: only a comment on a task of the caller's couple is found. */
    method DestroyComment(id: Id) returns (r: Result<NoContent>)
      requires Valid()
      modifies this
      ensures Valid() && session == old(session) && nextId == old(nextId) && clock == old(clock)
      ensures users == old(users) && couples == old(couples) && tasks == old(tasks)
      ensures old(Caller()).None? ==> r == Fail(Unauthorized)
      ensures old(Caller()).Some? && old(CallerCouple()).None? ==> r == Fail(ServerError)
      ensures old(CallerCouple()).Some? && ScopedComment(old(State()), old(CallerCouple()).value, id).None? ==> r == Fail(NotFound)
      ensures r.Fail? ==> unchanged(this)
      ensures r.Ok? <==> old(CallerCouple()).Some? && ScopedComment(old(State()), old(CallerCouple()).value, id).Some?
      ensures r.Ok? ==> comments == old(comments) - {id}
    {
      if Caller().None? {
        return Fail(Unauthorized);
      }
      if CallerCouple().None? {
        return Fail(ServerError);
      }
      if ScopedComment(State(), CallerCouple().value, id).None? {
        return Fail(NotFound);
      }
      DestroyCommentKeeps(State(), clock, nextId, id);
      Commit(State().(comments := comments - {id}), clock, nextId);
      r := Ok(NoContent);
    }
  }
}

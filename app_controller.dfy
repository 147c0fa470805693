/**
 * backend/app/controllers/application_controller.rb: who the caller is, and
 * the member projection `{ id, name, color }` every controller renders.
 */
module AppController {
  import opened Common
  import opened Schema

  /** The errors an action can end in. */
  datatype Error =
    | Unauthorized
    | NotFound
    | Invalid(messages: seq<string>)
      /** An exception the action does not rescue (HTTP 500); the store is as before unless stated. */
    | ServerError

  datatype Result<T> = Ok(value: T) | Fail(error: Error)

  /** The empty body of `head :no_content`. */
  datatype NoContent = NoContent

  /** `current_user`: the user whose id the session holds, if there is one. */
  function CurrentUser(users: map<Id, User>, session: Option<Id>): (r: Option<Id>)
    ensures r.Some? <==> session.Some? && session.value in users
    ensures r.Some? ==> r == session && r.value in users
  {
    if session.Some? && session.value in users then session else None
  }

  /** `current_couple`: the current user's couple, or nil without a user or without a couple. */
  function CurrentCouple(db: Db, session: Option<Id>): (r: Option<Id>)
    ensures r.Some? <==>
      CurrentUser(db.users, session).Some? && db.users[session.value].coupleId.Some?
      && db.users[session.value].coupleId.value in db.couples
    ensures r.Some? ==> r == db.users[session.value].coupleId && r.value in db.couples
  {
    var me := CurrentUser(db.users, session);
    if me.Some? then
      var c := db.users[me.value].coupleId;
      if c.Some? && c.value in db.couples then c else None
    else None
  }

  /** `{ id:, name:, color: }` of a user. */
  datatype MemberView = MemberView(id: Id, name: string, color: Option<Color>)

  function Member(users: map<Id, User>, u: Id): (v: MemberView)
    requires u in users
    ensures v.id == u && v.name == users[u].name && v.color == users[u].color
  {
    MemberView(u, users[u].name, users[u].color)
  }
}

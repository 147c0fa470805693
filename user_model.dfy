/**
 * backend/app/models/user.rb: the validations a user must pass to be saved
 * (including those `has_secure_password` adds), and credential checking.
 */
module UserModel {
  import opened Common
  import opened Schema

  /** The attributes signup takes from the request (`user_params`). */
  datatype SignupParams = SignupParams(email: Option<string>, name: Option<string>,
                                       password: Option<string>, confirmation: Option<string>)

  /** Longest password `has_secure_password` accepts. */
  const MaxPasswordLength := 72

  /** Assigning a password stores a digest only when the password is non-empty. */
  predicate HasDigest(password: Option<string>)
  {
    password.Some? && password.value != ""
  }

  /**
   * `validates_confirmation_of :password, allow_nil: true` (Rails 7.1): checked
   * whenever a confirmation is sent and the password was assigned, even when
   * the password is only white space.
   */
  predicate ConfirmationMatches(p: SignupParams)
  {
    p.confirmation.Some? && HasDigest(p.password) ==> p.confirmation.value == p.password.value
  }

  /**
   * The full error messages of saving a new user, in the order the validations
   * are declared; a user is saved exactly when the list is empty.
   */
  function SignupErrors(users: map<Id, User>, p: SignupParams): (r: seq<string>)
    ensures r == [] <==>
      && HasDigest(p.password) && |p.password.value| <= MaxPasswordLength
      && ConfirmationMatches(p)
      && Present(p.email) && !EmailTaken(users, p.email.value)
      && Present(p.name)
    ensures p.email.Some? && EmailTaken(users, p.email.value) ==> "Email has already been taken" in r
  {
    (if HasDigest(p.password) then [] else ["Password can't be blank"])
    + (if p.password.Some? && |p.password.value| > MaxPasswordLength
       then ["Password is too long (maximum is 72 characters)"] else [])
    + (if ConfirmationMatches(p) then [] else ["Password confirmation doesn't match Password"])
    + (if Present(p.email) then [] else ["Email can't be blank"])
    + (if p.email.Some? && EmailTaken(users, p.email.value) then ["Email has already been taken"] else [])
    + (if Present(p.name) then [] else ["Name can't be blank"])
  }

  /** A password of spaces gets a digest, so a mismatching confirmation is still reported. */
  lemma BlankPasswordIsConfirmed()
    ensures SignupErrors(map[], SignupParams(Some("a@x"), Some("A"), Some("   "), Some("x")))
            == ["Password confirmation doesn't match Password"]
  {
    var p := SignupParams(Some("a@x"), Some("A"), Some("   "), Some("x"));
    assert |"   "| == 3 && "x" != "   ";
    assert !IsSpace("a@x"[0]) && !IsSpace("A"[0]);
    assert !EmailTaken(map[], "a@x");
  }

  /** What every stored user satisfies: present email and name, a digest. */
  predicate ValidUser(u: User)
  {
    !Blank(u.email) && !Blank(u.name) && u.credential != ""
  }

  /** The user row signup saves when the validations pass. */
  function NewUser(p: SignupParams, couple: Id): (u: User)
    requires p.email.Some? && p.name.Some? && p.password.Some?
    ensures u.coupleId == Some(couple) && u.color == Some(Blue)
    ensures u.email == p.email.value
  {
    User(p.email.value, p.name.value, p.password.value, Some(couple), Some(Blue))
  }

  lemma {:induction false} SavedUserIsValid(users: map<Id, User>, p: SignupParams, couple: Id)
    requires SignupErrors(users, p) == []
    ensures ValidUser(NewUser(p, couple))
    ensures !EmailTaken(users, NewUser(p, couple).email)
  {
  }

  /**
   * `user.destroy`: the user's comments go with it (`dependent: :destroy`);
   * `assigned_tasks` has no dependent option, so the foreign key on
   * `tasks.assignee_id` refuses the delete while a task names the user.
   */
  function DestroyUser(db: Db, u: Id): (r: Option<Db>)
    ensures r.None? <==> exists t :: t in db.tasks && db.tasks[t].assigneeId == Some(u)
    ensures r.Some? ==> && r.value.users == db.users - {u}
                        && r.value.couples == db.couples && r.value.tasks == db.tasks
    ensures r.Some? ==> forall c :: c in r.value.comments <==> c in db.comments && db.comments[c].userId != u
    ensures r.Some? ==> forall c :: c in r.value.comments ==> r.value.comments[c] == db.comments[c]
  {
    if exists t :: t in db.tasks && db.tasks[t].assigneeId == Some(u) then None
    else Some(db.(users := db.users - {u},
                  comments := map c | c in db.comments && db.comments[c].userId != u :: db.comments[c]))
  }

  /**
   * `authenticate(password)`: stands for comparing the password's digest with
   * the stored one; a missing password never authenticates.
   */
  predicate Authenticates(u: User, password: Option<string>)
  {
    password.Some? && password.value == u.credential
  }
}

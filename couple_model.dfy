/**
 * backend/app/models/couple.rb: invite-code generation on creation, the
 * members of a couple, and what destroying a couple does to its users and tasks.
 */
module CoupleModel {
  import opened Common
  import opened Schema
  import opened TaskModel

  const InviteCodeLength := 8

  predicate IsInviteChar(c: char)
  {
    'A' <= c <= 'Z' || '0' <= c <= '9'
  }

  /** The shape of every generated invite code: 8 characters from A-Z and 0-9. */
  predicate WellFormedCode(code: string)
  {
    |code| == InviteCodeLength && forall i :: 0 <= i < |code| ==> IsInviteChar(code[i])
  }

  predicate IsAlphanumeric(c: char)
  {
    'A' <= c <= 'Z' || 'a' <= c <= 'z' || '0' <= c <= '9'
  }

  /** What `SecureRandom.alphanumeric(8)` can return. */
  predicate RandomAlphanumeric(raw: string)
  {
    |raw| == InviteCodeLength && forall i :: 0 <= i < |raw| ==> IsAlphanumeric(raw[i])
  }

  /** `generate_invite_code`: the random string, upper-cased. */
  function GenerateInviteCode(raw: string): (code: string)
    requires RandomAlphanumeric(raw)
    ensures WellFormedCode(code)
    ensures forall i :: 0 <= i < |raw| && !('a' <= raw[i] <= 'z') ==> code[i] == raw[i]
  {
    Upcase(raw)
  }

  /** The users whose couple reference is `c` (`couple.users`). */
  function Members(users: map<Id, User>, c: Id): set<Id>
  {
    set u | u in users && users[u].coupleId == Some(c)
  }

  /** The tasks of couple `c` (`couple.tasks`). */
  function CoupleTasks(tasks: map<Id, Task>, c: Id): (r: set<Id>)
    ensures r <= tasks.Keys
  {
    set t | t in tasks && tasks[t].coupleId == c
  }

  /**
   * Whether destroying couple `c` fails: one of the task subtrees its
   * `dependent: :destroy` walks never ends, and the whole destroy rolls back.
   */
  predicate DestroyFails(db: Db, c: Id)
  {
    Diverges(db.tasks, CoupleTasks(db.tasks, c))
  }

  /**
   * `couple.destroy` when it succeeds: the members' couple reference becomes
   * nil (`dependent: :nullify`), every task of the couple is destroyed with its
   * subtree and comments, and the couple row goes.
   */
  function DestroyCouple(db: Db, c: Id): (r: Db)
    ensures r.couples == db.couples - {c}
    ensures r.users.Keys == db.users.Keys
    ensures forall u :: u in db.users && db.users[u].coupleId == Some(c) ==>
      r.users[u] == db.users[u].(coupleId := None)
    ensures forall u :: u in db.users && db.users[u].coupleId != Some(c) ==> r.users[u] == db.users[u]
    ensures forall t :: t in r.tasks ==> t in db.tasks && r.tasks[t] == db.tasks[t] && r.tasks[t].coupleId != c
    ensures forall t :: t in r.tasks ==> t !in Subtree(db.tasks, CoupleTasks(db.tasks, c))
    ensures forall t :: t in db.tasks && t !in Subtree(db.tasks, CoupleTasks(db.tasks, c)) ==> t in r.tasks
    ensures r.comments == DestroyTasks(db, CoupleTasks(db.tasks, c)).comments
  {
    var nullified := map u | u in db.users ::
      if db.users[u].coupleId == Some(c) then db.users[u].(coupleId := None) else db.users[u];
    var cleared := DestroyTasks(db.(users := nullified), CoupleTasks(db.tasks, c));
    cleared.(couples := db.couples - {c})
  }

  /** After the destroy no user is a member of the couple any more. */
  lemma DestroyedCoupleHasNoMembers(db: Db, c: Id)
    ensures Members(DestroyCouple(db, c).users, c) == {}
  {
    var r := DestroyCouple(db, c);
    forall u | u in r.users
      ensures r.users[u].coupleId != Some(c)
    {
      assert u in db.users;
    }
  }
}

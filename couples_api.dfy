/**
 * backend/app/controllers/api/couples_controller.rb: looking a couple up by
 * invite code, the pairing decision and what `join` writes, and the rendered
 * couple of `show`. The actions are methods of Backend.Store.
 */
module CouplesApi {
  import opened Common
  import opened Schema
  import opened TaskModel
  import opened CoupleModel
  import opened Integrity
  import opened AppController
  import opened AuthApi

  const CoupleFull := "This couple already has two members"
  const AlreadyMember := "You are already in this couple"

  /** `Couple.find_by(invite_code: params[:invite_code]&.upcase)`, compared under the tables' collation. */
  function FindByCode(couples: map<Id, Couple>, n: nat, code: Option<string>): (r: Option<Id>)
    requires KeysBelow(couples, n)
    ensures r.Some? ==> code.Some? && r.value in couples && SameText(couples[r.value].inviteCode, Upcase(code.value))
    ensures r.None? <==> code.None? || !InviteCodeTaken(couples, Upcase(code.value))
  {
    if code.None? then None
    else
      var wanted := Upcase(code.value);
      var hits := Where(couples, n, (id: Id, c: Couple) => SameText(c.inviteCode, wanted));
      First(hits)
  }

  /**
   * The early returns of `join`, in their order: no couple with the code, the
   * couple already has two members, the caller already belongs to it.
   * Otherwise the target couple.
   */
  function JoinCheck(db: Db, n: nat, me: Id, code: Option<string>): (r: Result<Id>)
    requires me in db.users && KeysBelow(db.couples, n)
    ensures r == Fail(NotFound) <==> FindByCode(db.couples, n, code).None?
    ensures r == Fail(Invalid([CoupleFull])) <==>
      FindByCode(db.couples, n, code).Some? && |Members(db.users, FindByCode(db.couples, n, code).value)| >= 2
    ensures r == Fail(Invalid([AlreadyMember])) <==>
      && FindByCode(db.couples, n, code).Some? && |Members(db.users, FindByCode(db.couples, n, code).value)| < 2
      && db.users[me].coupleId == FindByCode(db.couples, n, code)
    ensures r.Ok? <==>
      && FindByCode(db.couples, n, code).Some? && |Members(db.users, FindByCode(db.couples, n, code).value)| < 2
      && db.users[me].coupleId != FindByCode(db.couples, n, code)
    ensures r.Ok? ==> Some(r.value) == FindByCode(db.couples, n, code) && r.value in db.couples
  {
    var found := FindByCode(db.couples, n, code);
    if found.None? then Fail(NotFound)
    else if |Members(db.users, found.value)| >= 2 then Fail(Invalid([CoupleFull]))
    else if db.users[me].coupleId == found then Fail(Invalid([AlreadyMember]))
    else Ok(found.value)
  }

  /** `current_user.update!(couple: couple, color: 'green')`. */
  function MoveUser(db: Db, me: Id, target: Id): (r: Db)
    requires me in db.users
    ensures r.users.Keys == db.users.Keys && r.couples == db.couples
    ensures r.tasks == db.tasks && r.comments == db.comments
    ensures r.users[me].coupleId == Some(target) && r.users[me].color == Some(Green)
    ensures r.users[me].(coupleId := db.users[me].coupleId, color := db.users[me].color) == db.users[me]
    ensures forall u :: u in db.users && u != me ==> r.users[u] == db.users[u]
  {
    db.(users := db.users[me := db.users[me].(coupleId := Some(target), color := Some(Green))])
  }

  /** The body of `join` after a successful decision's response. */
  datatype JoinView = JoinView(coupleId: Id, partner: Option<MemberView>)

  /** What `join` answers and the database it leaves. */
  datatype Joined = Joined(reply: Result<JoinView>, db: Db)

  function JoinReply(db: Db, n: nat, me: Id, target: Id): (v: JoinView)
    requires me in db.users && KeysBelow(db.users, n)
    ensures v.coupleId == target
    ensures v.partner.Some? <==> PartnerOf(db, n, me).Some?
    ensures v.partner.Some? ==> v.partner.value == Member(db.users, PartnerOf(db, n, me).value)
  {
    var p := PartnerOf(db, n, me);
    JoinView(target, if p.Some? then Some(Member(db.users, p.value)) else None)
  }

  /**
   * `join`: after the checks the caller moves to the target couple and turns
   * green; then the previous couple is destroyed if no member is left. When that
   * destroy cannot finish (a task cycle under it) it rolls back on its own, and
   * the move stays.
   */
  function JoinOutcome(db: Db, n: nat, me: Id, code: Option<string>): (r: Joined)
    requires me in db.users && KeysBelow(db.couples, n) && KeysBelow(db.users, n)
    ensures JoinCheck(db, n, me, code).Fail? ==> r == Joined(Fail(JoinCheck(db, n, me, code).error), db)
    ensures JoinCheck(db, n, me, code).Ok? ==> r.reply.Ok? || r.reply == Fail(ServerError)
    ensures r.reply.Ok? ==> r.reply.value.coupleId == JoinCheck(db, n, me, code).value
  {
    match JoinCheck(db, n, me, code)
    case Fail(e) => Joined(Fail(e), db)
    case Ok(target) =>
      var moved := MoveUser(db, me, target);
      var previous := db.users[me].coupleId;
      if previous.Some? && previous.value in db.couples && Members(moved.users, previous.value) == {} then
        if DestroyFails(moved, previous.value) then Joined(Fail(ServerError), moved)
        else
          var after := DestroyCouple(moved, previous.value);
          Joined(Ok(JoinReply(after, n, me, target)), after)
      else Joined(Ok(JoinReply(moved, n, me, target)), moved)
  }

  /**
   * A pairing that gets past the checks moves the caller to the target couple
   * and colours it green; no other user's row changes.
   */
  lemma JoinMovesOnlyCaller(db: Db, n: nat, me: Id, code: Option<string>)
    requires me in db.users && KeysBelow(db.couples, n) && KeysBelow(db.users, n)
    requires JoinCheck(db, n, me, code).Ok?
    ensures JoinOutcome(db, n, me, code).db.users.Keys == db.users.Keys
    ensures JoinOutcome(db, n, me, code).db.users[me] ==
      db.users[me].(coupleId := Some(JoinCheck(db, n, me, code).value), color := Some(Green))
    ensures forall u :: u in db.users && u != me ==> JoinOutcome(db, n, me, code).db.users[u] == db.users[u]
  {
    var t := JoinCheck(db, n, me, code).value;
    var moved := MoveUser(db, me, t);
    var previous := db.users[me].coupleId;
    if previous.Some? && previous.value in db.couples && Members(moved.users, previous.value) == {}
       && !DestroyFails(moved, previous.value) {
      var after := DestroyCouple(moved, previous.value);
      forall u | u in moved.users
        ensures after.users[u] == moved.users[u]
      {
        assert u !in Members(moved.users, previous.value);
      }
    }
  }

  /** A successful pairing leaves the target couple with the caller and at most one other member. */
  lemma JoinBoundsTarget(db: Db, n: nat, me: Id, code: Option<string>)
    requires me in db.users && KeysBelow(db.couples, n) && KeysBelow(db.users, n)
    requires JoinCheck(db, n, me, code).Ok?
    ensures me in Members(JoinOutcome(db, n, me, code).db.users, JoinCheck(db, n, me, code).value)
    ensures |Members(JoinOutcome(db, n, me, code).db.users, JoinCheck(db, n, me, code).value)| <= 2
  {
    var t := JoinCheck(db, n, me, code).value;
    var after := JoinOutcome(db, n, me, code).db.users;
    assert Members(after, t) <= Members(db.users, t) + {me};
    SubsetCardinality(Members(after, t), Members(db.users, t) + {me});
  }

  /**
   * The caller's previous couple disappears exactly when the caller was its
   * last member (and its destroy could finish).
   */
  lemma JoinDestroysPreviousIffEmpty(db: Db, n: nat, me: Id, code: Option<string>)
    requires me in db.users && KeysBelow(db.couples, n) && KeysBelow(db.users, n)
    requires JoinOutcome(db, n, me, code).reply.Ok?
    requires db.users[me].coupleId.Some? && db.users[me].coupleId.value in db.couples
    ensures db.users[me].coupleId.value !in JoinOutcome(db, n, me, code).db.couples <==>
      Members(db.users, db.users[me].coupleId.value) == {me}
  {
    var o := db.users[me].coupleId.value;
    var t := JoinCheck(db, n, me, code).value;
    var moved := MoveUser(db, me, t);
    assert o != t;
    assert me in Members(db.users, o);
    assert Members(moved.users, o) == Members(db.users, o) - {me};
  }

  /** `join` creates no couple and rewrites no invite code: a couple is only ever removed. */
  lemma JoinKeepsInviteCodes(db: Db, n: nat, me: Id, code: Option<string>)
    requires me in db.users && KeysBelow(db.couples, n) && KeysBelow(db.users, n)
    ensures forall c :: c in JoinOutcome(db, n, me, code).db.couples ==>
      c in db.couples && JoinOutcome(db, n, me, code).db.couples[c] == db.couples[c]
  {
    if JoinCheck(db, n, me, code).Ok? {
      var moved := MoveUser(db, me, JoinCheck(db, n, me, code).value);
      var previous := db.users[me].coupleId;
      if previous.Some? && previous.value in db.couples && Members(moved.users, previous.value) == {}
         && !DestroyFails(moved, previous.value) {
        assert DestroyCouple(moved, previous.value).couples == db.couples - {previous.value};
      }
    }
  }

  /** `join` keeps the store invariant, on both outcomes that write. */
  lemma JoinKeeps(db: Db, clock: Time, n: nat, me: Id, code: Option<string>)
    requires Consistent(db, clock, n) && me in db.users
    ensures Consistent(JoinOutcome(db, n, me, code).db, clock, n)
  {
    if JoinCheck(db, n, me, code).Ok? {
      var t := JoinCheck(db, n, me, code).value;
      MoveUserKeeps(db, clock, n, me, t);
      var moved := MoveUser(db, me, t);
      var previous := db.users[me].coupleId;
      if previous.Some? && previous.value in db.couples && Members(moved.users, previous.value) == {}
         && !DestroyFails(moved, previous.value) {
        DestroyCoupleKeeps(moved, clock, n, previous.value);
      }
    }
  }

  /** `show`: the couple with its invite code and all its members. */
  datatype CoupleView = CoupleView(id: Id, name: Option<string>, inviteCode: string, members: seq<MemberView>)

  function CoupleResponse(db: Db, n: nat, c: Id): (v: CoupleView)
    requires c in db.couples && KeysBelow(db.users, n)
    ensures v.id == c && v.name == db.couples[c].name && v.inviteCode == db.couples[c].inviteCode
    ensures forall u :: u in Members(db.users, c) <==> exists i :: 0 <= i < |v.members| && v.members[i].id == u
    ensures forall i :: 0 <= i < |v.members| ==> v.members[i].id in db.users && v.members[i] == Member(db.users, v.members[i].id)
    ensures forall i, j :: 0 <= i < j < |v.members| ==> v.members[i].id != v.members[j].id
  {
    var ids := Where(db.users, n, (id: Id, u: User) => u.coupleId == Some(c));
    var members := seq(|ids|, i requires 0 <= i < |ids| => Member(db.users, ids[i]));
    assert forall u :: u in Members(db.users, c) ==> exists i :: 0 <= i < |members| && members[i].id == u by {
      forall u | u in Members(db.users, c)
        ensures exists i :: 0 <= i < |members| && members[i].id == u
      {
        var i :| 0 <= i < |ids| && ids[i] == u;
        assert members[i].id == u;
      }
    }
    CoupleView(c, db.couples[c].name, db.couples[c].inviteCode, members)
  }
}

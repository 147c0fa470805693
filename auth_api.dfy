/**
 * backend/app/controllers/api/auth_controller.rb: the rendered user
 * (`user_response`) and its partner (`partner_info`). Signup, login, logout and
 * `me` are methods of Backend.Store.
 */
module AuthApi {
  import opened Common
  import opened Schema
  import opened CoupleModel
  import opened AppController

  /**
   * `User.find_by(email: params[:email])`, compared under the tables' collation;
   * the column is NOT NULL, so a nil email finds nobody.
   */
  function FindByEmail(users: map<Id, User>, n: nat, email: Option<string>): (r: Option<Id>)
    requires KeysBelow(users, n)
    ensures r.Some? ==> email.Some? && r.value in users && SameText(users[r.value].email, email.value)
    ensures r.None? <==> email.None? || !EmailTaken(users, email.value)
  {
    if email.None? then None
    else First(Where(users, n, (id: Id, u: User) => SameText(u.email, email.value)))
  }

  /**
   * `partner_info(user)`: `user.couple&.users.where.not(id: user.id).first`.
   * Without an order `first` takes the smallest primary key.
   */
  function PartnerOf(db: Db, n: nat, u: Id): (r: Option<Id>)
    requires u in db.users && KeysBelow(db.users, n)
    ensures r.Some? ==> && db.users[u].coupleId.Some? && db.users[u].coupleId.value in db.couples
                        && r.value in Members(db.users, db.users[u].coupleId.value) && r.value != u
    ensures r.None? <==> db.users[u].coupleId.None? || db.users[u].coupleId.value !in db.couples
                         || Members(db.users, db.users[u].coupleId.value) <= {u}
    ensures r.Some? ==> forall v :: v in Members(db.users, db.users[u].coupleId.value) && v != u ==> r.value <= v
  {
    var c := db.users[u].coupleId;
    if c.Some? && c.value in db.couples then
      var others := Where(db.users, n, (id: Id, v: User) => v.coupleId == c && id != u);
      if others == [] then
        assert forall v :: v in Members(db.users, c.value) ==> v == u;
        None
      else
        assert forall v :: v in Members(db.users, c.value) && v != u ==> others[0] <= v by {
          forall v | v in Members(db.users, c.value) && v != u
            ensures others[0] <= v
          {
            var k :| 0 <= k < |others| && others[k] == v;
            assert k == 0 || others[0] < others[k];
          }
        }
        First(others)
    else None
  }

  /** In a couple of exactly two, each member's partner is the other. */
  lemma PartnersAreMutual(db: Db, n: nat, a: Id, b: Id)
    requires a in db.users && b in db.users && KeysBelow(db.users, n)
    requires a != b && db.users[a].coupleId.Some? && db.users[a].coupleId.value in db.couples
    requires Members(db.users, db.users[a].coupleId.value) == {a, b}
    ensures PartnerOf(db, n, a) == Some(b) && PartnerOf(db, n, b) == Some(a)
  {
    var c := db.users[a].coupleId.value;
    assert b in Members(db.users, c);
    assert !(Members(db.users, c) <= {a}) && !(Members(db.users, c) <= {b});
  }

  /** `user_response(user)`. */
  datatype UserView = UserView(id: Id, email: string, name: string, color: Option<Color>,
                               coupleId: Option<Id>, inviteCode: Option<string>,
                               partner: Option<MemberView>)

  function UserResponse(db: Db, n: nat, u: Id): (v: UserView)
    requires u in db.users && KeysBelow(db.users, n)
    ensures v.id == u && v.email == db.users[u].email && v.name == db.users[u].name
    ensures v.color == db.users[u].color && v.coupleId == db.users[u].coupleId
    ensures v.inviteCode.Some? <==> db.users[u].coupleId.Some? && db.users[u].coupleId.value in db.couples
    ensures v.inviteCode.Some? ==> v.inviteCode.value == db.couples[db.users[u].coupleId.value].inviteCode
    ensures v.partner.Some? <==> PartnerOf(db, n, u).Some?
    ensures v.partner.Some? ==> v.partner.value == Member(db.users, PartnerOf(db, n, u).value)
  {
    var row := db.users[u];
    var code := if row.coupleId.Some? && row.coupleId.value in db.couples
                then Some(db.couples[row.coupleId.value].inviteCode) else None;
    var partner := PartnerOf(db, n, u);
    UserView(u, row.email, row.name, row.color, row.coupleId, code,
             if partner.Some? then Some(Member(db.users, partner.value)) else None)
  }
}

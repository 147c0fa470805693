/**
 * backend/app/controllers/api/comments_controller.rb: the comments a caller
 * can reach (only through a task of the caller's couple) and the rendered form
 * of a comment. The actions themselves are methods of Backend.Store.
 */
module CommentsApi {
  import opened Common
  import opened Schema
  import opened CommentModel
  import opened AppController

  /** `set_task`: `current_couple.tasks.find(params[:task_id])`. */
  function ScopedTask(tasks: map<Id, Task>, couple: Id, id: Id): (r: Option<Id>)
    ensures r.Some? <==> id in tasks && tasks[id].coupleId == couple
    ensures r.Some? ==> r.value == id
  {
    if id in tasks && tasks[id].coupleId == couple then Some(id) else None
  }

  /** `set_comment`: the comment, joined to its task, restricted to the caller's couple. */
  function ScopedComment(db: Db, couple: Id, id: Id): (r: Option<Id>)
    ensures r.Some? <==> id in db.comments && ScopedTask(db.tasks, couple, db.comments[id].taskId).Some?
    ensures r.Some? ==> r.value == id
  {
    if id in db.comments && ScopedTask(db.tasks, couple, db.comments[id].taskId).Some? then Some(id) else None
  }

  /** `comment_response`: the comment with its author's member view. */
  datatype CommentView = CommentView(id: Id, content: string, user: MemberView, createdAt: Time)

  function CommentResponse(db: Db, c: Id): (v: CommentView)
    requires c in db.comments && db.comments[c].userId in db.users
    ensures v.id == c && v.content == db.comments[c].content && v.createdAt == db.comments[c].createdAt
    ensures v.user.id == db.comments[c].userId && v.user.name == db.users[db.comments[c].userId].name
    ensures v.user.color == db.users[db.comments[c].userId].color
  {
    var row := db.comments[c];
    CommentView(c, row.content, Member(db.users, row.userId), row.createdAt)
  }

  /** `index`: the task's comments in the default order, each rendered. */
  function CommentList(db: Db, n: nat, task: Id): (r: seq<CommentView>)
    requires ChronologicalComments(db.comments) && KeysBelow(db.comments, n)
    requires CommentsReferenceUsers(db.comments, db.users)
    ensures |r| == |CommentsOf(db.comments, n, task)|
    ensures forall i :: 0 <= i < |r| ==> r[i] == CommentResponse(db, CommentsOf(db.comments, n, task)[i])
  {
    var ids := CommentsOf(db.comments, n, task);
    seq(|ids|, i requires 0 <= i < |ids| => CommentResponse(db, ids[i]))
  }

  /**
   * The listing holds exactly the comments of the task, oldest first. In the
   * store every comment's author exists (the foreign key on `comments.user_id`).
   */
  lemma CommentListIsTheTasksComments(db: Db, n: nat, task: Id)
    requires ChronologicalComments(db.comments) && KeysBelow(db.comments, n)
    requires CommentsReferenceUsers(db.comments, db.users)
    ensures forall c :: c in db.comments && db.comments[c].taskId == task <==>
      exists i :: 0 <= i < |CommentList(db, n, task)| && CommentList(db, n, task)[i].id == c
    ensures forall i, j :: 0 <= i < j < |CommentList(db, n, task)| ==>
      CommentList(db, n, task)[i].createdAt < CommentList(db, n, task)[j].createdAt
  {
    var ids := CommentsOf(db.comments, n, task);
    var r := CommentList(db, n, task);
    forall c | c in db.comments && db.comments[c].taskId == task
      ensures exists i :: 0 <= i < |r| && r[i].id == c
    {
      var i :| 0 <= i < |ids| && ids[i] == c;
      assert r[i].id == c;
    }
    forall i, j | 0 <= i < j < |r|
      ensures r[i].createdAt < r[j].createdAt
    {
      assert r[i].createdAt == db.comments[ids[i]].createdAt;
      assert r[j].createdAt == db.comments[ids[j]].createdAt;
    }
  }
}

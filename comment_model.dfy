/**
 * backend/app/models/comment.rb: the validations of a comment and its default
 * ascending creation order.
 */
module CommentModel {
  import opened Common
  import opened Schema

  /**
   * The full error messages of saving a comment, in declaration order: the
   * required task and user, then the content.
   */
  function CommentErrors(db: Db, c: Comment): (r: seq<string>)
    ensures r == [] <==> c.taskId in db.tasks && c.userId in db.users && !Blank(c.content)
    ensures Blank(c.content) ==> "Content can't be blank" in r
  {
    (if c.taskId in db.tasks then [] else ["Task must exist"])
    + (if c.userId in db.users then [] else ["User must exist"])
    + (if Blank(c.content) then ["Content can't be blank"] else [])
  }

  /** What every stored comment satisfies. */
  predicate ValidComment(c: Comment)
  {
    !Blank(c.content)
  }

  /** `default_scope { order(created_at: :asc) }` over a listing of comment ids. */
  ghost predicate OldestFirst(comments: map<Id, Comment>, s: seq<Id>)
  {
    && (forall i :: 0 <= i < |s| ==> s[i] in comments)
    && forall i, j :: 0 <= i < j < |s| ==> comments[s[i]].createdAt < comments[s[j]].createdAt
  }

  /** Comments with smaller ids were created earlier. */
  ghost predicate ChronologicalComments(comments: map<Id, Comment>)
  {
    forall a, b :: a in comments && b in comments && a < b ==> comments[a].createdAt < comments[b].createdAt
  }

  /**
   * The comments of one task in the default order. Walking ids gives the
   * creation order because ids and timestamps grow together.
   */
  function CommentsOf(comments: map<Id, Comment>, n: nat, task: Id): (r: seq<Id>)
    requires ChronologicalComments(comments) && KeysBelow(comments, n)
    ensures forall c :: c in r <==> c in comments && comments[c].taskId == task
    ensures OldestFirst(comments, r)
  {
    Where(comments, n, (id: Id, c: Comment) => c.taskId == task)
  }
}

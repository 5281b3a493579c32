/** The comment handlers of controllers/comments.js: listing a post's
    comments, and creating, updating and deleting a comment on behalf of the
    authenticated caller (`req.user`). Only the owner may edit a comment;
    the owner or an administrator may delete it. */
module Comments {
  import opened Base
  import opened Text
  import opened UserModel
  import opened PostModel
  import opened Posts
  import opened CommentModel

  function CommentIndex(comments: seq<Comment>, id: CommentId): Option<nat> {
    FirstIndex(comments, (c: Comment) => c.id == id)
  }

  /** `getCommentsForPost`: 404 when the post does not exist; otherwise
      exactly the comments on that post, oldest first. */
  function CommentsForPost(posts: seq<Post>, comments: seq<Comment>, postId: PostId): (r: Response<seq<Comment>>)
    ensures r.status == 404 <==> forall j :: 0 <= j < |posts| ==> posts[j].id != postId
    ensures r.status != 404 ==> r.status == 200 && r.data.Some?
    ensures r.status != 404 ==> forall k :: 0 <= k < |r.data.value| ==> r.data.value[k].postId == postId
    ensures r.status != 404 ==>
              forall c :: multiset(r.data.value)[c] == if c.postId == postId then multiset(comments)[c] else 0
    ensures r.status != 404 ==>
              forall i, j :: 0 <= i < j < |r.data.value| ==> r.data.value[i].createdAt <= r.data.value[j].createdAt
  {
    if PostIndex(posts, postId).None? then Response(404, "Post not found", None)
    else
      var onPost := Filter(comments, (c: Comment) => c.postId == postId);
      var sorted := SortBy(onPost, (c: Comment) => c.createdAt);
      forall k | 0 <= k < |sorted| ensures sorted[k].postId == postId {
        assert sorted[k] in multiset(onPost);
      }
      Response(200, "Comments fetched successfully", Some(sorted))
  }

  /** The comment collection, updated in place by the handlers that write it. */
  class CommentStore {
    var comments: seq<Comment>

    ghost predicate Valid()
      reads this
    {
      && (forall i, j :: 0 <= i < j < |comments| ==> comments[i].id != comments[j].id)
      && (forall i :: 0 <= i < |comments| ==> CommentConforms(comments[i]))
    }

    constructor()
      ensures Valid() && comments == []
    {
      comments := [];
    }

    /** `createComment`: 400 for missing content before the post is looked
        up, 404 for a missing post, 500 when the schema refuses the content;
        otherwise one new comment owned by the caller on that post. */
    method CreateComment(posts: seq<Post>, caller: User, postId: PostId, content: string,
                         newId: CommentId, now: int) returns (res: Response<Comment>)
      requires Valid()
      requires CommentIndex(comments, newId).None?
      modifies this
      ensures Valid()
      ensures content == "" ==>
                res == Response(400, "Content is required for a comment.", None) && comments == old(comments)
      ensures content != "" && PostIndex(posts, postId).None? ==>
                res == Response(404, "Post not found, cannot add comment.", None) && comments == old(comments)
      ensures content != "" && PostIndex(posts, postId).Some? && CastCommentContent(content).None? ==>
                res == Response(500, "Internal server error", None) && comments == old(comments)
      ensures content != "" && PostIndex(posts, postId).Some? && CastCommentContent(content).Some? ==>
                var c := Comment(newId, CastCommentContent(content).value, caller.id, postId, now, now);
                comments == old(comments) + [c] && res == Response(201, "Comment created successfully", Some(c))
    {
      if content == "" {
        return Response(400, "Content is required for a comment.", None);
      }
      var post := PostIndex(posts, postId);
      if post.None? {
        return Response(404, "Post not found, cannot add comment.", None);
      }
      var stored := CastCommentContent(content);
      if stored.None? {
        return Response(500, "Internal server error", None);
      }
      var newComment := Comment(newId, stored.value, caller.id, postId, now, now);
      comments := comments + [newComment];
      res := Response(201, "Comment created successfully", Some(newComment));
    }

    /** `updateComment`: 400 for missing content, 404 for an unknown comment,
        403 for anyone but its owner (administrators included), 500 when the
        schema refuses the content; otherwise only that comment's content
        and `updatedAt` change. */
    method UpdateComment(caller: User, commentId: CommentId, content: string, now: int)
      returns (res: Response<Comment>)
      requires Valid()
      modifies this
      ensures Valid()
      ensures content == "" ==>
                res == Response(400, "Content is required to update a comment.", None) && comments == old(comments)
      ensures content != "" && CommentIndex(old(comments), commentId).None? ==>
                res == Response(404, "Comment not found", None) && comments == old(comments)
      ensures content != "" && CommentIndex(old(comments), commentId).Some? ==>
                var i := CommentIndex(old(comments), commentId).value;
                && (old(comments)[i].userId != caller.id ==>
                      res == Response(403, "Not authorized to update this comment.", None) && comments == old(comments))
                && (old(comments)[i].userId == caller.id && CastCommentContent(content).None? ==>
                      res == Response(500, "Internal server error", None) && comments == old(comments))
                && (old(comments)[i].userId == caller.id && CastCommentContent(content).Some? ==>
                      var c := old(comments)[i].(content := CastCommentContent(content).value, updatedAt := now);
                      comments == old(comments)[i := c] && res == Response(200, "Comment updated successfully", Some(c)))
    {
      if content == "" {
        return Response(400, "Content is required to update a comment.", None);
      }
      var found := CommentIndex(comments, commentId);
      if found.None? {
        return Response(404, "Comment not found", None);
      }
      var i := found.value;
      var comment := comments[i];
      if comment.userId != caller.id {
        return Response(403, "Not authorized to update this comment.", None);
      }
      var stored := CastCommentContent(content);
      if stored.None? {
        return Response(500, "Internal server error", None);
      }
      comment := comment.(content := stored.value);
      comment := comment.(updatedAt := now);
      comments := comments[i := comment];
      res := Response(200, "Comment updated successfully", Some(comment));
    }

    /** `deleteComment`: 404 for an unknown comment; permitted exactly when
        the caller owns the comment or is an administrator, and then exactly
        that comment is removed; 403 otherwise. */
    method DeleteComment(caller: User, commentId: CommentId) returns (res: Response<()>)
      requires Valid()
      modifies this
      ensures Valid()
      ensures CommentIndex(old(comments), commentId).None? ==>
                res == Response(404, "Comment not found", None) && comments == old(comments)
      ensures CommentIndex(old(comments), commentId).Some? ==>
                var i := CommentIndex(old(comments), commentId).value;
                && (old(comments)[i].userId == caller.id || caller.role == Admin ==>
                      comments == RemoveAt(old(comments), i)
                      && res == Response(200, "Comment deleted successfully", None))
                && (old(comments)[i].userId != caller.id && caller.role != Admin ==>
                      comments == old(comments) && res == Response(403, "Not authorized to delete this comment.", None))
      ensures res.status == 200 ==> forall j :: 0 <= j < |comments| ==> comments[j].id != commentId
    {
      var found := CommentIndex(comments, commentId);
      if found.None? {
        return Response(404, "Comment not found", None);
      }
      var comment := comments[found.value];
      if comment.userId != caller.id && caller.role != Admin {
        return Response(403, "Not authorized to delete this comment.", None);
      }
      ghost var before := comments;
      comments := RemoveAt(comments, found.value);
      forall a, b | 0 <= a < b < |comments| ensures comments[a].id != comments[b].id {
        var a' := if a < found.value then a else a + 1;
        var b' := if b < found.value then b else b + 1;
        assert comments[a] == before[a'] && comments[b] == before[b'];
      }
      res := Response(200, "Comment deleted successfully", None);
    }
  }
}

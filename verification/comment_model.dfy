/** The Comment schema of models/comment.js: trimmed content of 1 to 500
    characters, required references to the author and the post, and the
    two timestamps. */
module CommentModel {
  import opened Base
  import opened Text
  import opened UserModel
  import opened PostModel

  type CommentId = nat

  datatype Comment = Comment(
    id: CommentId,
    content: string,
    userId: UserId,
    postId: PostId,
    createdAt: int,
    updatedAt: int)

  /** What every stored comment's content satisfies. */
  ghost predicate CommentConforms(c: Comment) {
    1 <= |c.content| <= 500 && Trimmed(c.content)
  }

  /** The `content` path: the trim setter, then the required and length
      validators. */
  function CastCommentContent(content: string): (r: Option<string>)
    ensures r.Some? ==> 1 <= |r.value| <= 500 && Trimmed(r.value) && r.value == Trim(content)
    ensures 1 <= |Trim(content)| <= 500 ==> r == Some(Trim(content))
  {
    var t := Trim(content);
    if 1 <= |t| <= 500 then Some(t) else None
  }

  /** Content made only of white space passes the handlers' presence check
      but is refused by the schema. */
  lemma {:induction false} BlankContentRefused(content: string)
    requires forall k :: 0 <= k < |content| ==> IsSpace(content[k])
    ensures CastCommentContent(content).None?
  {
    TrimCutsOnlySpace(content);
  }

  /** Content that already conforms is stored exactly as given. */
  lemma ConformingContentKept(content: string)
    requires 1 <= |content| <= 500 && Trimmed(content)
    ensures CastCommentContent(content) == Some(content)
  {
    TrimFixesTrimmed(content);
  }
}

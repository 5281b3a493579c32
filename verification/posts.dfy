/** The post handlers of controllers/posts.js over the post collection:
    listing, lookup, creation, update with the three-way image rule, and
    deletion. The Cloudinary upload and destroy calls a handler makes are
    returned in order as `calls`; what the upload yields is an input. */
module Posts {
  import opened Base
  import opened Text
  import opened PostModel

  /** A call to Cloudinary's uploader. */
  datatype CloudCall = Upload | Destroy(publicId: string)

  /** The request's file and what uploading it gave: no file, the uploaded
      image's `secure_url` and `public_id`, or an upload that threw. */
  datatype FileUpload = NoFile | Uploaded(url: string, publicId: string) | UploadFailed

  function PostIndex(posts: seq<Post>, id: PostId): Option<nat> {
    FirstIndex(posts, (p: Post) => p.id == id)
  }

  /** `tags ? tags.split(",").map((tag) => tag.trim()) : fallback`, the
      absent or empty field giving `fallback`. */
  function ParseTags(tags: string, fallback: seq<string>): (r: seq<string>)
    ensures tags == "" ==> r == fallback
    ensures tags != "" ==> |r| == Occurrences(tags, ',') + 1
    ensures tags != "" ==> forall k :: 0 <= k < |r| ==> Trimmed(r[k]) && ',' !in r[k]
  {
    if tags == "" then fallback
    else
      var pieces := Split(tags, ',');
      SplitCount(tags, ',');
      forall k | 0 <= k < |pieces| ensures ',' !in Trim(pieces[k]) {
        TrimCutsOnlySpace(pieces[k]);
      }
      TrimAll(pieces)
  }

  /** Tags written out comma-separated, with any spacing around the commas,
      are read back as the trimmed tags. */
  lemma ParseJoinedTags(parts: seq<string>, fallback: seq<string>)
    requires |parts| >= 1 && Join(parts, ',') != ""
    requires forall k :: 0 <= k < |parts| ==> ',' !in parts[k]
    ensures ParseTags(Join(parts, ','), fallback) == TrimAll(parts)
  {
    SplitJoin(parts, ',');
  }

  /** In particular, trimmed tags free of commas survive the round trip. */
  lemma ParseJoinedTrimmedTags(parts: seq<string>, fallback: seq<string>)
    requires |parts| >= 1 && Join(parts, ',') != ""
    requires forall k :: 0 <= k < |parts| ==> ',' !in parts[k] && Trimmed(parts[k])
    ensures ParseTags(Join(parts, ','), fallback) == parts
  {
    ParseJoinedTags(parts, fallback);
    TrimAllFixesTrimmed(parts);
  }

  /** The Cloudinary calls for a request's file: one upload when a file is
      attached. */
  function UploadCalls(file: FileUpload): seq<CloudCall> {
    if file.NoFile? then [] else [Upload]
  }

  /** The 201 status of `createPost`'s success reply. In `CreatePostAsWritten`
      the success arm is unreachable (the cast always refuses), and a named
      constant there keeps the verifier from checking a literal in a branch
      it knows cannot run. */
  const Created: nat := 201

  /** `createPost` as written: it hands `Post.create` only `title`,
      `content`, `author` and `tags`, since strict mode drops `imageUrl` and
      `cloudinaryId`, which the schema does not declare. The schema's
      required `category` then takes its default "" and the required
      `excerpt` is missing, so once the three fields are present the reply is
      always 500 and nothing is stored, though a file has already been
      uploaded. */
  function CreatePostAsWritten(title: string, content: string, author: string, tags: string,
                               file: FileUpload, now: int): (r: (Response<PostDocument>, seq<CloudCall>))
    ensures r.0.status != 201
    ensures r.0.status == 400 <==> title == "" || content == "" || author == ""
    ensures r.0.status != 400 ==> r.0 == Response(500, "Internal server error", None) && r.1 == UploadCalls(file)
  {
    if title == "" || content == "" || author == "" then
      (Response(400, "Title, content, and author are required fields.", None), [])
    else if file.UploadFailed? then
      (Response(500, "Internal server error", None), [Upload])
    else
      var input := PostInput(Some(title), None, None, None, None, Some(content), Some(author), None, [],
                             ParseTags(tags, []));
      match CastPost(input, now)
      case None => (Response(500, "Internal server error", None), UploadCalls(file))
      case Some(d) => (Response(Created, "Post created successfully", Some(d)), UploadCalls(file))
  }

  /** `getPosts`: every post, newest first. */
  function GetPosts(posts: seq<Post>): (r: Response<seq<Post>>)
    ensures r.status == 200 && r.data.Some?
    ensures multiset(r.data.value) == multiset(posts)
    ensures forall i, j :: 0 <= i < j < |r.data.value| ==> r.data.value[i].createdAt >= r.data.value[j].createdAt
  {
    var sorted := SortBy(posts, (p: Post) => -p.createdAt);
    assert forall i, j :: 0 <= i < j < |sorted| ==> -sorted[i].createdAt <= -sorted[j].createdAt;
    Response(200, "Posts fetched successfully", Some(sorted))
  }

  /** `getPostById`: the post with that id, or 404. */
  function GetPostById(posts: seq<Post>, id: PostId): (r: Response<Post>)
    ensures r.status == 404 <==> forall j :: 0 <= j < |posts| ==> posts[j].id != id
    ensures r.status != 404 ==> r.status == 200 && r.data.Some? && r.data.value.id == id && r.data.value in posts
  {
    match PostIndex(posts, id)
    case None => Response(404, "Post not found", None)
    case Some(i) => Response(200, "Post fetched successfully", Some(posts[i]))
  }

  /** The image fields after `updatePost`'s file handling, the calls made,
      and whether it got through without an upload error. */
  datatype ImageChange = ImageChange(ok: bool, imageUrl: string, cloudinaryId: string, calls: seq<CloudCall>)

  /** `updatePost`'s image rule: a new file replaces both fields, destroying
      the old image first if there is one; otherwise `removeImage` equal to
      "true" clears both fields and destroys the old image, provided there
      is one; otherwise both fields stay. */
  function ImageAfterUpdate(p: Post, file: FileUpload, removeImage: string): (c: ImageChange)
    ensures file.Uploaded? ==>
              c == ImageChange(true, file.url, file.publicId,
                               (if p.cloudinaryId != "" then [Destroy(p.cloudinaryId)] else []) + [Upload])
    ensures file.UploadFailed? ==>
              !c.ok && c.calls == (if p.cloudinaryId != "" then [Destroy(p.cloudinaryId)] else []) + [Upload]
    ensures file.NoFile? && removeImage == "true" && p.cloudinaryId != "" ==>
              c == ImageChange(true, "", "", [Destroy(p.cloudinaryId)])
    ensures file.NoFile? && (removeImage != "true" || p.cloudinaryId == "") ==>
              c == ImageChange(true, p.imageUrl, p.cloudinaryId, [])
  {
    var destroyOld := if p.cloudinaryId != "" then [Destroy(p.cloudinaryId)] else [];
    match file
    case Uploaded(url, publicId) => ImageChange(true, url, publicId, destroyOld + [Upload])
    case UploadFailed => ImageChange(false, p.imageUrl, p.cloudinaryId, destroyOld + [Upload])
    case NoFile =>
      if removeImage == "true" && p.cloudinaryId != "" then ImageChange(true, "", "", destroyOld)
      else ImageChange(true, p.imageUrl, p.cloudinaryId, [])
  }

  /** `updatePost`'s file handling, step by step on the two image locals:
      it computes exactly `ImageAfterUpdate`. */
  method UpdateImage(post: Post, file: FileUpload, removeImage: string)
    returns (ok: bool, imageUrl: string, cloudinaryId: string, calls: seq<CloudCall>)
    ensures ImageChange(ok, imageUrl, cloudinaryId, calls) == ImageAfterUpdate(post, file, removeImage)
  {
    imageUrl := post.imageUrl;
    cloudinaryId := post.cloudinaryId;
    calls := [];
    ok := true;
    if !file.NoFile? {
      if post.cloudinaryId != "" {
        calls := calls + [Destroy(post.cloudinaryId)];
      }
      calls := calls + [Upload];
      if file.UploadFailed? {
        ok := false;
        return;
      }
      imageUrl := file.url;
      cloudinaryId := file.publicId;
    } else if removeImage == "true" && post.cloudinaryId != "" {
      calls := calls + [Destroy(post.cloudinaryId)];
      imageUrl := "";
      cloudinaryId := "";
    }
  }

  /** No image is orphaned by the rule: when the stored image id changes,
      the old image was destroyed; and the only image ever destroyed is the
      post's own. */
  lemma NoOrphanedImage(p: Post, file: FileUpload, removeImage: string)
    ensures var c := ImageAfterUpdate(p, file, removeImage);
            c.ok && p.cloudinaryId != "" && c.cloudinaryId != p.cloudinaryId ==> Destroy(p.cloudinaryId) in c.calls
    ensures var c := ImageAfterUpdate(p, file, removeImage);
            forall k :: 0 <= k < |c.calls| && c.calls[k].Destroy? ==> c.calls[k].publicId == p.cloudinaryId
    ensures var c := ImageAfterUpdate(p, file, removeImage);
            forall k :: 0 <= k < |c.calls| ==> c.calls[k].Destroy? ==> k == 0
  {
  }

  /** Asking to remove the image a second time changes nothing and calls
      nothing. */
  lemma RemoveImageTwice(p: Post)
    ensures var once := ImageAfterUpdate(p, NoFile, "true");
            var again := ImageAfterUpdate(p.(imageUrl := once.imageUrl, cloudinaryId := once.cloudinaryId), NoFile, "true");
            again == ImageChange(true, once.imageUrl, once.cloudinaryId, [])
  {
  }

  /** The update `updatePost` writes once the image rule has run: each of
      `title`, `content` and `author` when the body carries it, else the
      stored value; the parsed tags, else the stored ones; the image fields;
      and `updatedAt`. The update validators then run on what is written. */
  function ApplyUpdate(p: Post, title: Option<string>, content: Option<string>, author: Option<string>,
                       tags: string, imageUrl: string, cloudinaryId: string, now: int): (r: Option<Post>)
    ensures r.Some? ==> PostConforms(r.value)
    ensures r.Some? ==>
              && r.value.id == p.id && r.value.createdAt == p.createdAt && r.value.updatedAt == now
              && r.value.imageUrl == imageUrl && r.value.cloudinaryId == cloudinaryId
  {
    var t := if title.Some? then title else Some(p.title);
    var c := if content.Some? then content else Some(p.content);
    var a := if author.Some? then author else Some(p.author);
    MakePost(p.id, t, c, a, ParseTags(tags, p.tags), imageUrl, cloudinaryId, p.createdAt, now)
  }

  /** An update that carries none of the fields keeps them all; only the
      image fields and `updatedAt` are written. */
  lemma UpdateWithoutFields(p: Post, imageUrl: string, cloudinaryId: string, now: int)
    requires PostConforms(p)
    ensures ApplyUpdate(p, None, None, None, "", imageUrl, cloudinaryId, now)
              == Some(p.(imageUrl := imageUrl, cloudinaryId := cloudinaryId, updatedAt := now))
  {
    MakeConforming(p.(imageUrl := imageUrl, cloudinaryId := cloudinaryId), p.createdAt, now);
  }

  /** What an update of a stored post writes: each field it carries, cast,
      and the stored value of each field it lacks. It is refused only when a
      field it carries breaks the schema. */
  lemma {:induction false} UpdateFields(p: Post, title: Option<string>, content: Option<string>, author: Option<string>,
                                        tags: string, imageUrl: string, cloudinaryId: string, now: int)
    requires PostConforms(p)
    ensures var r := ApplyUpdate(p, title, content, author, tags, imageUrl, cloudinaryId, now);
            r.Some? ==>
              && r.value.title == (if title.Some? then Trim(title.value) else p.title)
              && r.value.content == (if content.Some? then content.value else p.content)
              && r.value.author == (if author.Some? then Trim(author.value) else p.author)
              && r.value.tags == ParseTags(tags, p.tags)
    ensures (title.None? || 3 <= |Trim(title.value)| <= 200)
            && (content.None? || content.value != "")
            && (author.None? || Trim(author.value) != "")
            ==> ApplyUpdate(p, title, content, author, tags, imageUrl, cloudinaryId, now).Some?
  {
    TrimFixesTrimmed(p.title);
    TrimFixesTrimmed(p.author);
    TrimAllFixesTrimmed(ParseTags(tags, p.tags));
  }

  /** The collection's invariant: unique ids, every post conforming. */
  ghost predicate ValidPosts(posts: seq<Post>) {
    && (forall i, j :: 0 <= i < j < |posts| ==> posts[i].id != posts[j].id)
    && (forall i :: 0 <= i < |posts| ==> PostConforms(posts[i]))
  }

  lemma ReplacePreservesValid(posts: seq<Post>, i: nat, p: Post)
    requires ValidPosts(posts) && i < |posts|
    requires p.id == posts[i].id && PostConforms(p)
    ensures ValidPosts(posts[i := p])
  {
  }

  /** The post collection, updated in place by the handlers that write it. */
  class PostStore {
    var posts: seq<Post>

    ghost predicate Valid()
      reads this
    {
      ValidPosts(posts)
    }

    constructor()
      ensures Valid() && posts == []
    {
      posts := [];
    }

    /** `createPost`, with the post stored as the handler builds it (see
        `CreatePostAsWritten` for what the schema as declared does): 400
        when `title`, `content` or `author` is missing; 500 when the upload
        throws or the casts refuse the fields; otherwise exactly one new
        post, whose image fields are the upload's or empty without a file
        and whose tags are the parsed ones or none. */
    method CreatePost(title: string, content: string, author: string, tags: string,
                      file: FileUpload, newId: PostId, now: int)
      returns (res: Response<Post>, calls: seq<CloudCall>)
      requires Valid()
      requires PostIndex(posts, newId).None?
      modifies this
      ensures Valid()
      ensures title == "" || content == "" || author == "" ==>
                res == Response(400, "Title, content, and author are required fields.", None)
                && calls == [] && posts == old(posts)
      ensures title != "" && content != "" && author != "" ==> calls == UploadCalls(file)
      ensures title != "" && content != "" && author != "" && file.UploadFailed? ==>
                res == Response(500, "Internal server error", None) && posts == old(posts)
      ensures title != "" && content != "" && author != "" && !file.UploadFailed? ==>
                var imageUrl := if file.Uploaded? then file.url else "";
                var cloudinaryId := if file.Uploaded? then file.publicId else "";
                var made := MakePost(newId, Some(title), Some(content), Some(author), ParseTags(tags, []),
                                     imageUrl, cloudinaryId, now, now);
                && (made.None? ==> res == Response(500, "Internal server error", None) && posts == old(posts))
                && (made.Some? ==> res == Response(201, "Post created successfully", made)
                                   && posts == old(posts) + [made.value])
    {
      if title == "" || content == "" || author == "" {
        return Response(400, "Title, content, and author are required fields.", None), [];
      }
      var imageUrl := "";
      var cloudinaryId := "";
      calls := [];
      if !file.NoFile? {
        calls := calls + [Upload];
        if file.UploadFailed? {
          return Response(500, "Internal server error", None), calls;
        }
        imageUrl := file.url;
        cloudinaryId := file.publicId;
      }
      var newPost := MakePost(newId, Some(title), Some(content), Some(author), ParseTags(tags, []),
                              imageUrl, cloudinaryId, now, now);
      if newPost.None? {
        return Response(500, "Internal server error", None), calls;
      }
      posts := posts + [newPost.value];
      res := Response(201, "Post created successfully", newPost);
    }

    /** `updatePost`: 404 and nothing done for an unknown id. Otherwise the
        image rule runs first, its Cloudinary calls are made whatever
        follows, and the post becomes `ApplyUpdate`'s result; an upload
        error or a refused update gives 500 and leaves the post as it was. */
    method UpdatePost(id: PostId, title: Option<string>, content: Option<string>, author: Option<string>,
                      tags: string, file: FileUpload, removeImage: string, now: int)
      returns (res: Response<Post>, calls: seq<CloudCall>)
      requires Valid()
      modifies this
      ensures Valid()
      ensures PostIndex(old(posts), id).None? ==>
                res == Response(404, "Post not found", None) && calls == [] && posts == old(posts)
      ensures PostIndex(old(posts), id).Some? ==>
                var i := PostIndex(old(posts), id).value;
                var change := ImageAfterUpdate(old(posts)[i], file, removeImage);
                var updated := ApplyUpdate(old(posts)[i], title, content, author, tags,
                                           change.imageUrl, change.cloudinaryId, now);
                && calls == change.calls
                && (!change.ok || updated.None? ==>
                      res == Response(500, "Internal server error", None) && posts == old(posts))
                && (change.ok && updated.Some? ==>
                      res == Response(200, "Post updated successfully", updated)
                      && posts == old(posts)[i := updated.value])
    {
      var found := PostIndex(posts, id);
      if found.None? {
        return Response(404, "Post not found", None), [];
      }
      var i := found.value;
      var post := posts[i];
      var ok, imageUrl, cloudinaryId;
      ok, imageUrl, cloudinaryId, calls := UpdateImage(post, file, removeImage);
      if !ok {
        return Response(500, "Internal server error", None), calls;
      }
      var updated := ApplyUpdate(post, title, content, author, tags, imageUrl, cloudinaryId, now);
      if updated.None? {
        return Response(500, "Internal server error", None), calls;
      }
      ReplacePreservesValid(posts, i, updated.value);
      posts := posts[i := updated.value];
      res := Response(200, "Post updated successfully", updated);
    }

    /** `deletePost`: 404 and nothing done for an unknown id; otherwise the
        image is destroyed when the post has one, and exactly that post is
        removed. */
    method DeletePost(id: PostId) returns (res: Response<()>, calls: seq<CloudCall>)
      requires Valid()
      modifies this
      ensures Valid()
      ensures PostIndex(old(posts), id).None? ==>
                res == Response(404, "Post not found", None) && calls == [] && posts == old(posts)
      ensures PostIndex(old(posts), id).Some? ==>
                var i := PostIndex(old(posts), id).value;
                && calls == (if old(posts)[i].cloudinaryId != "" then [Destroy(old(posts)[i].cloudinaryId)] else [])
                && posts == RemoveAt(old(posts), i)
                && res == Response(200, "Post deleted successfully", None)
      ensures forall j :: 0 <= j < |posts| ==> posts[j].id != id
    {
      var found := PostIndex(posts, id);
      if found.None? {
        return Response(404, "Post not found", None), [];
      }
      var post := posts[found.value];
      calls := [];
      if post.cloudinaryId != "" {
        calls := calls + [Destroy(post.cloudinaryId)];
      }
      ghost var before := posts;
      posts := RemoveAt(posts, found.value);
      forall a, b | 0 <= a < b < |posts| ensures posts[a].id != posts[b].id {
        var a' := if a < found.value then a else a + 1;
        var b' := if b < found.value then b else b + 1;
        assert posts[a] == before[a'] && posts[b] == before[b'];
      }
      res := Response(200, "Post deleted successfully", None);
    }
  }

  /** The request of the createPost finding: as written it is refused with
      500, while the corrected handler stores it and answers 201. */
  method CreateHelloPost(now: int) returns (asWritten: nat, corrected: nat)
    ensures asWritten == 500 && corrected == 201
  {
    asWritten := CreatePostAsWritten("Hello", "x", "me", "", NoFile, now).0.status;
    var store := new PostStore();
    assert Trim("Hello") == "Hello" && Trim("me") == "me" by {
      TrimFixesTrimmed("Hello");
      TrimFixesTrimmed("me");
    }
    var res, calls := store.CreatePost("Hello", "x", "me", "", NoFile, 0, now);
    corrected := res.status;
  }

  /** A failed upload in `updatePost` comes after the old image has already
      been destroyed: the reply is 500 and the stored post keeps the id of
      the image that no longer exists. */
  method FailedUploadKeepsDestroyedId(store: PostStore, id: PostId, title: Option<string>, content: Option<string>,
                                      author: Option<string>, tags: string, removeImage: string, now: int)
    returns (res: Response<Post>, calls: seq<CloudCall>)
    requires store.Valid()
    requires PostIndex(store.posts, id).Some?
    requires store.posts[PostIndex(store.posts, id).value].cloudinaryId != ""
    modifies store
    ensures res == Response(500, "Internal server error", None)
    ensures store.posts == old(store.posts)
    ensures var i := PostIndex(store.posts, id).value;
            calls == [Destroy(store.posts[i].cloudinaryId), Upload]
  {
    res, calls := store.UpdatePost(id, title, content, author, tags, UploadFailed, removeImage, now);
  }
}

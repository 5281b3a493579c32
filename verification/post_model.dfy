/** The Post schema of models/post.js: the category enumeration, the
    setters (trim, lowercase), the defaults and the validators a document
    must pass before it is stored; and the post record the controllers in
    controllers/posts.js actually read and write. */
module PostModel {
  import opened Base
  import opened Text

  type PostId = nat

  /** The `category` enumeration. */
  datatype Category = Technology | Business | Education | Design | LifeStyle | Other

  function CategoryName(c: Category): string {
    match c
    case Technology => "technology"
    case Business => "business"
    case Education => "education"
    case Design => "design"
    case LifeStyle => "life-style"
    case Other => "other"
  }

  /** The enum validator: exactly the six names are categories. */
  function ParseCategory(s: string): (r: Option<Category>)
    ensures r.Some? <==> s in {"technology", "business", "education", "design", "life-style", "other"}
    ensures r.Some? ==> CategoryName(r.value) == s
  {
    if s == "technology" then Some(Technology)
    else if s == "business" then Some(Business)
    else if s == "education" then Some(Education)
    else if s == "design" then Some(Design)
    else if s == "life-style" then Some(LifeStyle)
    else if s == "other" then Some(Other)
    else None
  }

  /** Every category survives being written out and read back. */
  lemma CategoryRoundTrip(c: Category)
    ensures ParseCategory(CategoryName(c)) == Some(c)
  {
  }

  /** A `mainImage` or `otherImages` entry. */
  datatype Image = Image(url: string, fileId: string)

  /** `required` on a string path: set and not empty. */
  predicate RequiredString(v: Option<string>) {
    v.Some? && v.value != ""
  }

  function OrEmpty(v: Option<string>): string {
    if v.Some? then v.value else ""
  }

  // The path casts: the setter, then the path's validators; `None` is a
  // validation error.

  function CastTitle(v: Option<string>): Option<string> {
    if v.Some? && 3 <= |Trim(v.value)| <= 200 then Some(Trim(v.value)) else None
  }

  function CastExcerpt(v: Option<string>): Option<string> {
    if v.Some? && 10 <= |Trim(v.value)| <= 500 then Some(Trim(v.value)) else None
  }

  /** An unset `category` takes its default "", which the required and enum
      validators both refuse. */
  function CastCategory(v: Option<string>): Option<Category> {
    var c := Trim(OrEmpty(v));
    if c == "" then None else ParseCategory(c)
  }

  function CastContent(v: Option<string>): Option<string> {
    if RequiredString(v) then v else None
  }

  function CastAuthor(v: Option<string>): Option<string> {
    if v.Some? && Trim(v.value) != "" then Some(Trim(v.value)) else None
  }

  predicate ImageComplete(img: Image) {
    img.url != "" && img.fileId != ""
  }

  /** The paths of a document handed to `Post.create`; `None` is an
      undefined path. Paths the schema does not declare cannot be written:
      strict mode drops them. */
  datatype PostInput = PostInput(
    title: Option<string>,
    category: Option<string>,
    excerpt: Option<string>,
    isPublished: Option<bool>,
    slug: Option<string>,
    content: Option<string>,
    author: Option<string>,
    mainImage: Option<Image>,
    otherImages: seq<Image>,
    tags: seq<string>)

  /** A document of the Post collection as the schema stores it. */
  datatype PostDocument = PostDocument(
    title: string,
    category: Category,
    excerpt: string,
    isPublished: bool,
    slug: Option<string>,
    content: string,
    author: string,
    mainImage: Image,
    otherImages: seq<Image>,
    tags: seq<string>,
    createdAt: int,
    updatedAt: int)

  /** What every stored document satisfies. */
  ghost predicate Conforms(d: PostDocument) {
    && 3 <= |d.title| <= 200 && Trimmed(d.title)
    && 10 <= |d.excerpt| <= 500 && Trimmed(d.excerpt)
    && d.content != ""
    && d.author != "" && Trimmed(d.author)
    && (d.slug.Some? ==> forall k :: 0 <= k < |d.slug.value| ==> !IsUpper(d.slug.value[k]))
    && (forall k :: 0 <= k < |d.otherImages| ==> ImageComplete(d.otherImages[k]))
    && (forall k :: 0 <= k < |d.tags| ==> Trimmed(d.tags[k]))
  }

  /** Casting and validating a new document: the setters trim `title`,
      `category`, `excerpt`, `author` and each tag and lower-case `slug`;
      `isPublished` defaults to true and `mainImage` to empty url and file
      id; both timestamps are `now`. Any failed validator refuses the whole
      document. */
  function CastPost(input: PostInput, now: int): (r: Option<PostDocument>)
    ensures r.Some? ==> Conforms(r.value)
    ensures r.Some? ==>
              && input.title.Some? && input.category.Some? && input.excerpt.Some?
              && input.content.Some? && input.author.Some?
              && r.value.title == Trim(input.title.value)
              && CategoryName(r.value.category) == Trim(input.category.value)
              && r.value.excerpt == Trim(input.excerpt.value)
              && r.value.content == input.content.value
              && r.value.author == Trim(input.author.value)
              && r.value.otherImages == input.otherImages
              && |r.value.tags| == |input.tags|
              && (forall k :: 0 <= k < |input.tags| ==> r.value.tags[k] == Trim(input.tags[k]))
              && r.value.createdAt == now && r.value.updatedAt == now
    ensures r.Some? ==> r.value.isPublished == (if input.isPublished.Some? then input.isPublished.value else true)
    ensures r.Some? ==> r.value.mainImage == (if input.mainImage.Some? then input.mainImage.value else Image("", ""))
    ensures r.Some? ==> r.value.slug.Some? == input.slug.Some?
    ensures r.Some? && input.slug.Some? ==> r.value.slug.value == Lowercase(input.slug.value)
    ensures (|| !RequiredString(input.title) || !RequiredString(input.excerpt)
             || !RequiredString(input.content) || !RequiredString(input.author)) ==> r.None?
    ensures input.category.None? ==> r.None?
    ensures (&& input.title.Some? && 3 <= |Trim(input.title.value)| <= 200
             && input.category.Some? && ParseCategory(Trim(input.category.value)).Some?
             && input.excerpt.Some? && 10 <= |Trim(input.excerpt.value)| <= 500
             && RequiredString(input.content)
             && input.author.Some? && Trim(input.author.value) != ""
             && (forall k :: 0 <= k < |input.otherImages| ==> ImageComplete(input.otherImages[k]))) ==> r.Some?
  {
    var title := CastTitle(input.title);
    var category := CastCategory(input.category);
    var excerpt := CastExcerpt(input.excerpt);
    var content := CastContent(input.content);
    var author := CastAuthor(input.author);
    if title.None? || category.None? || excerpt.None? || content.None? || author.None? then None
    else if exists k :: 0 <= k < |input.otherImages| && !ImageComplete(input.otherImages[k]) then None
    else
      var isPublished := if input.isPublished.Some? then input.isPublished.value else true;
      var slug := if input.slug.Some? then Some(Lowercase(input.slug.value)) else None;
      var mainImage := if input.mainImage.Some? then input.mainImage.value else Image("", "");
      Some(PostDocument(title.value, category.value, excerpt.value, isPublished, slug, content.value,
                        author.value, mainImage, input.otherImages, TrimAll(input.tags), now, now))
  }

  /** The document written back out as input. */
  function AsInput(d: PostDocument): PostInput {
    PostInput(Some(d.title), Some(CategoryName(d.category)), Some(d.excerpt), Some(d.isPublished),
              d.slug, Some(d.content), Some(d.author), Some(d.mainImage), d.otherImages, d.tags)
  }

  /** The schema accepts every conforming document unchanged (apart from its
      timestamps): the setters and validators refuse nothing they produce. */
  lemma {:induction false} CastConforming(d: PostDocument, now: int)
    requires Conforms(d)
    ensures CastPost(AsInput(d), now) == Some(d.(createdAt := now, updatedAt := now))
  {
    TrimFixesTrimmed(d.title);
    TrimFixesTrimmed(d.excerpt);
    TrimFixesTrimmed(d.author);
    CategoryRoundTrip(d.category);
    assert Trim(CategoryName(d.category)) == CategoryName(d.category) by {
      TrimFixesTrimmed(CategoryName(d.category));
    }
    if d.slug.Some? {
      LowercaseFixesLower(d.slug.value);
    }
    TrimAllFixesTrimmed(d.tags);
  }

  /** Lower-casing a string with no upper-case letter changes nothing. */
  lemma {:induction false} LowercaseFixesLower(s: string)
    requires forall k :: 0 <= k < |s| ==> !IsUpper(s[k])
    ensures Lowercase(s) == s
  {
    if s != [] {
      LowercaseFixesLower(s[1..]);
    }
  }

  /** A post as the controllers handle it: the paths `createPost` and
      `updatePost` write, with the image held as `imageUrl` and
      `cloudinaryId`. */
  datatype Post = Post(
    id: PostId,
    title: string,
    content: string,
    author: string,
    tags: seq<string>,
    imageUrl: string,
    cloudinaryId: string,
    createdAt: int,
    updatedAt: int)

  /** The schema's constraints on the paths a `Post` carries. */
  ghost predicate PostConforms(p: Post) {
    && 3 <= |p.title| <= 200 && Trimmed(p.title)
    && p.content != ""
    && p.author != "" && Trimmed(p.author)
    && (forall k :: 0 <= k < |p.tags| ==> Trimmed(p.tags[k]))
  }

  /** Casting and validating the paths a `Post` carries, as `Post.create`
      and the update validators do: `title` and `author` trimmed, `title` of
      3 to 200 characters, `content` and `author` present and non-empty,
      each tag trimmed. */
  function MakePost(id: PostId, title: Option<string>, content: Option<string>, author: Option<string>,
                    tags: seq<string>, imageUrl: string, cloudinaryId: string,
                    createdAt: int, updatedAt: int): (r: Option<Post>)
    ensures r.Some? ==> PostConforms(r.value)
    ensures r.Some? ==>
              && title.Some? && content.Some? && author.Some?
              && r.value == Post(id, Trim(title.value), content.value, Trim(author.value), TrimAll(tags),
                                 imageUrl, cloudinaryId, createdAt, updatedAt)
    ensures (|| !RequiredString(title) || !RequiredString(content) || !RequiredString(author)) ==> r.None?
    ensures (&& title.Some? && 3 <= |Trim(title.value)| <= 200
             && RequiredString(content)
             && author.Some? && Trim(author.value) != "") ==> r.Some?
  {
    var t := CastTitle(title);
    var c := CastContent(content);
    var a := CastAuthor(author);
    if t.None? || c.None? || a.None? then None
    else Some(Post(id, t.value, c.value, a.value, TrimAll(tags), imageUrl, cloudinaryId, createdAt, updatedAt))
  }

  /** Every conforming post passes the casts unchanged (apart from its
      timestamps). */
  lemma {:induction false} MakeConforming(p: Post, createdAt: int, updatedAt: int)
    requires PostConforms(p)
    ensures MakePost(p.id, Some(p.title), Some(p.content), Some(p.author), p.tags, p.imageUrl, p.cloudinaryId,
                     createdAt, updatedAt) == Some(p.(createdAt := createdAt, updatedAt := updatedAt))
  {
    TrimFixesTrimmed(p.title);
    TrimFixesTrimmed(p.author);
    TrimAllFixesTrimmed(p.tags);
  }

  lemma TrimAllFixesTrimmed(tags: seq<string>)
    requires forall k :: 0 <= k < |tags| ==> Trimmed(tags[k])
    ensures TrimAll(tags) == tags
  {
    forall k | 0 <= k < |tags| ensures Trim(tags[k]) == tags[k] {
      TrimFixesTrimmed(tags[k]);
    }
  }
}

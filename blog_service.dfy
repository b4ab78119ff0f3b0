/**
 * `BlogService`: creating blogs in the context's organisation, patching
 * them (publish, un-publish, delete), and commenting on or reviewing them.
 */
module BlogService {
  import opened Wrappers
  import opened Errors
  import opened Ids
  import opened Entities
  import opened Foreign
  import opened Database
  import CommentService

  /** `IBlogInput`: the fields a new blog takes from the request. */
  datatype BlogInput = BlogInput(title: string, content: string)

  /**
   * `BlogService.Create`: a new blog with a fresh id in the context's
   * organisation, written by the context's staff member; it is published
   * only when the `published` option is given as true.
   */
  method Create(db: Store, gen: Generator, ctx: Ctx, data: BlogInput, published: Option<bool>) returns (b: Blog)
    requires gen.Valid() && db.Valid(gen.issued)
    requires ctx.organizationId.Some? && ctx.staff.Some?
    modifies db`blogs, gen
    ensures gen.Valid() && db.Valid(gen.issued)
    ensures b.id == Decimal(old(gen.next)) && b.id !in old(gen.issued)
    ensures b.title == data.title && b.content == data.content
    ensures b.organizationId == ctx.organizationId.value && b.createdByStaffId == ctx.staff.value.staff.id
    ensures b.published <==> published == Some(true)
    ensures !b.deleted
    ensures db.blogs == old(db.blogs) + [b] && gen.next == old(gen.next) + 1
  {
    var organization := ctx.organizationId.value;
    var staff := ctx.staff.value.staff;
    ghost var issued0 := gen.issued;
    var id := gen.Generate();
    ValidGrows(db, issued0, gen.issued);
    var isPublished := false;
    if published == Some(true) {
      isPublished := true;
    }
    b := Blog(id, data.title, data.content, organization, staff.id, isPublished, false);
    db.InsertBlog(b, gen.issued);
  }

  /** `IBlogUpdate`: each field is written only when it is given. */
  datatype BlogUpdate = BlogUpdate(content: Patch<string>, title: Patch<string>, published: Patch<bool>, deleted: Patch<bool>)

  const NoBlogChange: BlogUpdate := BlogUpdate(Keep, Keep, Keep, Keep)

  /** `Publish`'s update. */
  const PublishPatch: BlogUpdate := NoBlogChange.(published := Set(true))

  /** `UnPublish`'s update. */
  const UnPublishPatch: BlogUpdate := NoBlogChange.(published := Set(false))

  /** `Delete`'s update as the repository writes it. */
  const DeletePatch: BlogUpdate := NoBlogChange.(deleted := Set(false))

  /** The update a soft delete evidently means. */
  const IntendedDeletePatch: BlogUpdate := NoBlogChange.(deleted := Set(true))

  /** The row after the update: the fields the patch gives are replaced, all others kept. */
  function ApplyBlogUpdate(b: Blog, d: BlogUpdate): (v: Blog)
    ensures v.id == b.id && v.organizationId == b.organizationId && v.createdByStaffId == b.createdByStaffId
    ensures d.content.Keep? ==> v.content == b.content
    ensures d.content.Set? ==> v.content == d.content.value
    ensures d.title.Keep? ==> v.title == b.title
    ensures d.title.Set? ==> v.title == d.title.value
    ensures d.published.Keep? ==> v.published == b.published
    ensures d.published.Set? ==> v.published == d.published.value
    ensures d.deleted.Keep? ==> v.deleted == b.deleted
    ensures d.deleted.Set? ==> v.deleted == d.deleted.value
  {
    b.(content := d.content.Apply(b.content),
       title := d.title.Apply(b.title),
       published := d.published.Apply(b.published),
       deleted := d.deleted.Apply(b.deleted))
  }

  /**
   * `Update` on the blog table as a value: the missing blog is an error,
   * otherwise the first row with the id is rewritten and returned.
   */
  function PatchBlog(blogs: seq<Blog>, id: string, d: BlogUpdate): (Result<Blog>, seq<Blog>)
  {
    match BlogPosition(blogs, id)
    case None => (Failure(ResourceNotFound(BlogResource)), blogs)
    case Some(i) =>
      var v := ApplyBlogUpdate(blogs[i], d);
      (Success(v), blogs[i := v])
  }

  /** Rewriting the first row with an id, keeping the id, keeps that row first. */
  lemma PositionKept(blogs: seq<Blog>, i: nat, v: Blog)
    requires BlogPosition(blogs, v.id) == Some(i)
    ensures BlogPosition(blogs[i := v], v.id) == Some(i)
  {
    var after := blogs[i := v];
    assert after[i] in after;
    assert forall j :: 0 <= j < i ==> after[j] == blogs[j];
  }

  /**
   * `Update` fails with `ResourceNotFound(Blog)` exactly when no blog has
   * the id, and then changes nothing; otherwise it rewrites only the row
   * `Get` finds, keeps that row's id, organisation and author, and
   * afterwards `Get` finds the returned row.
   */
  lemma PatchBlogOutcome(blogs: seq<Blog>, id: string, d: BlogUpdate)
    ensures PatchBlog(blogs, id, d).0.Failure? <==> FindBlog(blogs, id).None?
    ensures PatchBlog(blogs, id, d).0.Failure? ==>
      PatchBlog(blogs, id, d) == (Failure(ResourceNotFound(BlogResource)), blogs)
    ensures PatchBlog(blogs, id, d).0.Success? ==>
      var (r, after) := PatchBlog(blogs, id, d);
      && r.value == ApplyBlogUpdate(FindBlog(blogs, id).value, d)
      && r.value.id == id
      && r.value.organizationId == FindBlog(blogs, id).value.organizationId
      && r.value.createdByStaffId == FindBlog(blogs, id).value.createdByStaffId
      && |after| == |blogs|
      && (forall j :: 0 <= j < |blogs| && j != BlogPosition(blogs, id).value ==> after[j] == blogs[j])
      && FindBlog(after, id) == Some(r.value)
  {
    if BlogPosition(blogs, id).Some? {
      var i := BlogPosition(blogs, id).value;
      PositionKept(blogs, i, ApplyBlogUpdate(blogs[i], d));
    }
  }

  /** Applying the same update twice is applying it once; in particular publishing twice. */
  lemma {:induction false} PatchTwice(blogs: seq<Blog>, id: string, d: BlogUpdate)
    ensures PatchBlog(PatchBlog(blogs, id, d).1, id, d) == PatchBlog(blogs, id, d)
  {
    if BlogPosition(blogs, id).Some? {
      var i := BlogPosition(blogs, id).value;
      var v := ApplyBlogUpdate(blogs[i], d);
      PositionKept(blogs, i, v);
      assert ApplyBlogUpdate(v, d) == v;
      assert blogs[i := v][i := v] == blogs[i := v];
    }
  }

  /** Publishing then un-publishing leaves the blog unpublished, with its title and content. */
  lemma PublishThenUnPublish(blogs: seq<Blog>, id: string)
    requires FindBlog(blogs, id).Some?
    ensures var (r, after) := PatchBlog(PatchBlog(blogs, id, PublishPatch).1, id, UnPublishPatch);
      && r == Success(FindBlog(blogs, id).value.(published := false))
      && FindBlog(after, id) == Some(r.value)
      && after == blogs[BlogPosition(blogs, id).value := r.value]
  {
    var i := BlogPosition(blogs, id).value;
    var v := ApplyBlogUpdate(blogs[i], PublishPatch);
    PositionKept(blogs, i, v);
    var w := ApplyBlogUpdate(v, UnPublishPatch);
    PositionKept(blogs[i := v], i, w);
    assert blogs[i := v][i := w] == blogs[i := w];
  }

  /**
   * As written, `Delete` of a live blog returns it unchanged and leaves the
   * table as it was: the returned row still has `deleted` false.
   */
  lemma DeleteKeepsLiveBlog(blogs: seq<Blog>, id: string)
    requires FindBlog(blogs, id).Some? && !FindBlog(blogs, id).value.deleted
    ensures PatchBlog(blogs, id, DeletePatch) == (Success(FindBlog(blogs, id).value), blogs)
    ensures !PatchBlog(blogs, id, DeletePatch).0.value.deleted
  {
    var i := BlogPosition(blogs, id).value;
    assert ApplyBlogUpdate(blogs[i], DeletePatch) == blogs[i];
    assert blogs[i := blogs[i]] == blogs;
  }

  /**
   * The intended soft delete marks the blog deleted and changes nothing
   * else of it; afterwards `Get` still finds it, marked deleted.
   */
  lemma IntendedDeleteMarksDeleted(blogs: seq<Blog>, id: string)
    requires FindBlog(blogs, id).Some?
    ensures var (r, after) := PatchBlog(blogs, id, IntendedDeletePatch);
      && r == Success(FindBlog(blogs, id).value.(deleted := true))
      && FindBlog(after, id) == Some(r.value)
  {
    var i := BlogPosition(blogs, id).value;
    PositionKept(blogs, i, ApplyBlogUpdate(blogs[i], IntendedDeletePatch));
  }

  /**
   * `BlogService.Update`: `Get` must find the blog; then only the given
   * fields are written, to the row with that id.
   */
  method Update(db: Store, ghost issued: set<string>, id: string, data: BlogUpdate) returns (r: Result<Blog>)
    requires db.Valid(issued)
    modifies db`blogs
    ensures db.Valid(issued)
    ensures (r, db.blogs) == PatchBlog(old(db.blogs), id, data)
  {
    var blog := db.BlogById(id);
    if blog.None? {
      return Failure(ResourceNotFound(BlogResource));
    }
    var document := NoBlogChange;
    if data.content.Set? {
      document := document.(content := data.content);
    }
    if data.title.Set? {
      document := document.(title := data.title);
    }
    if data.published.Set? {
      document := document.(published := data.published);
    }
    if data.deleted.Set? {
      document := document.(deleted := data.deleted);
    }
    assert document == data;
    var index := db.BlogIndex(id);
    var updated := ApplyBlogUpdate(db.blogs[index.value], document);
    db.ReplaceBlog(index.value, updated, issued);
    r := Success(updated);
  }

  /** `BlogService.Publish`: `Get` must find the blog, then `published := true`. */
  method Publish(db: Store, ghost issued: set<string>, id: string) returns (r: Result<Blog>)
    requires db.Valid(issued)
    modifies db`blogs
    ensures db.Valid(issued)
    ensures (r, db.blogs) == PatchBlog(old(db.blogs), id, PublishPatch)
  {
    var blog := db.BlogById(id);
    if blog.None? {
      return Failure(ResourceNotFound(BlogResource));
    }
    r := Update(db, issued, id, PublishPatch);
  }

  /** `BlogService.UnPublish`: `Get` must find the blog, then `published := false`. */
  method UnPublish(db: Store, ghost issued: set<string>, id: string) returns (r: Result<Blog>)
    requires db.Valid(issued)
    modifies db`blogs
    ensures db.Valid(issued)
    ensures (r, db.blogs) == PatchBlog(old(db.blogs), id, UnPublishPatch)
  {
    var blog := db.BlogById(id);
    if blog.None? {
      return Failure(ResourceNotFound(BlogResource));
    }
    r := Update(db, issued, id, UnPublishPatch);
  }

  /** `BlogService.Delete` as the repository writes it: `deleted := false`. */
  method Delete(db: Store, ghost issued: set<string>, id: string) returns (r: Result<Blog>)
    requires db.Valid(issued)
    modifies db`blogs
    ensures db.Valid(issued)
    ensures (r, db.blogs) == PatchBlog(old(db.blogs), id, DeletePatch)
  {
    var blog := db.BlogById(id);
    if blog.None? {
      return Failure(ResourceNotFound(BlogResource));
    }
    r := Update(db, issued, id, DeletePatch);
  }

  /** The soft delete `Delete` evidently means: `deleted := true`. */
  method DeleteIntended(db: Store, ghost issued: set<string>, id: string) returns (r: Result<Blog>)
    requires db.Valid(issued)
    modifies db`blogs
    ensures db.Valid(issued)
    ensures (r, db.blogs) == PatchBlog(old(db.blogs), id, IntendedDeletePatch)
  {
    var blog := db.BlogById(id);
    if blog.None? {
      return Failure(ResourceNotFound(BlogResource));
    }
    r := Update(db, issued, id, IntendedDeletePatch);
  }

  /**
   * `BlogService.Comment`: `Get` must find the blog; then a comment on it
   * by the session user, as `CommentService.Create` stores it.
   */
  method Comment(db: Store, gen: Generator, ctx: Ctx, id: string, comment: string, lib: Libraries)
    returns (r: Result<Entities.Comment>)
    requires gen.Valid() && db.Valid(gen.issued)
    requires ctx.session.Some?
    modifies db`comments, gen
    ensures gen.Valid() && db.Valid(gen.issued)
    ensures old(db.BlogById(id)).None? ==>
      && r == Failure(ResourceNotFound(BlogResource))
      && db.comments == old(db.comments) && gen.next == old(gen.next)
    ensures old(db.BlogById(id)).Some? ==>
      && r == CommentService.NewComment(Decimal(old(gen.next)), CommentService.CommentInput(comment, id), ctx.session.value.id, lib)
      && db.comments == (if r.Success? then old(db.comments) + [r.value] else old(db.comments))
      && gen.next == old(gen.next) + 1
  {
    var blog := db.BlogById(id);
    if blog.None? {
      return Failure(ResourceNotFound(BlogResource));
    }
    r := CommentService.Create(db, gen, ctx, CommentService.CommentInput(comment, blog.value.id), lib);
  }

  /**
   * `BlogService.Review`: `Get` must find the blog; then a review of it by
   * the context's staff member, as `CommentService.Review` stores it.
   */
  method Review(db: Store, gen: Generator, ctx: Ctx, id: string, review: string, lib: Libraries)
    returns (r: Result<Entities.Review>)
    requires gen.Valid() && db.Valid(gen.issued)
    requires ctx.staff.Some?
    modifies db`reviews, gen
    ensures gen.Valid() && db.Valid(gen.issued)
    ensures old(db.BlogById(id)).None? ==>
      && r == Failure(ResourceNotFound(BlogResource))
      && db.reviews == old(db.reviews) && gen.next == old(gen.next)
    ensures old(db.BlogById(id)).Some? ==>
      && r == CommentService.NewReview(Decimal(old(gen.next)), CommentService.ReviewInput(review, id), ctx.staff.value.staff.id, lib)
      && db.reviews == (if r.Success? then old(db.reviews) + [r.value] else old(db.reviews))
      && gen.next == old(gen.next) + 1
  {
    var blog := db.BlogById(id);
    if blog.None? {
      return Failure(ResourceNotFound(BlogResource));
    }
    r := CommentService.Review(db, gen, ctx, CommentService.ReviewInput(review, blog.value.id), lib);
  }
}

/**
 * `CommentService`: a comment row by the session user and a review row by
 * the context's staff member, each validated before it is stored.
 */
module CommentService {
  import opened Wrappers
  import opened Errors
  import opened Ids
  import opened Entities
  import opened Foreign
  import opened Helper
  import opened Database

  /** The validation rules of a new comment document. */
  const CommentSchema: Rules := map[
    "comment" := Pipe("required|max:1024"),
    "blog_id" := Pipe("required|max:20"),
    "created_by_user_id" := Pipe("required|max:20"),
    "deleted" := Pipe("boolean"),
    "created_at" := Pipe("date"),
    "updated_at" := Pipe("date")]

  /** The validation rules of a new review document. */
  const ReviewSchema: Rules := map[
    "review" := Pipe("required|max:1024"),
    "blog_id" := Pipe("required|max:20"),
    "created_by_staff_id" := Pipe("required|max:20"),
    "deleted" := Pipe("boolean"),
    "created_at" := Pipe("date"),
    "updated_at" := Pipe("date")]

  /** `IBlogCommentInput`. */
  datatype CommentInput = CommentInput(comment: string, blogId: string)

  /** `IBlogReviewInput`. */
  datatype ReviewInput = ReviewInput(review: string, blogId: string)

  /** The document validated before a comment is stored; timestamps are not modelled. */
  function CommentDocument(id: string, data: CommentInput, userId: string): Document
  {
    map["id" := Str(id), "comment" := Str(data.comment), "blog_id" := Str(data.blogId), "created_by_user_id" := Str(userId)]
  }

  /** The document validated before a review is stored; timestamps are not modelled. */
  function ReviewDocument(id: string, data: ReviewInput, staffId: string): Document
  {
    map["id" := Str(id), "review" := Str(data.review), "blog_id" := Str(data.blogId), "created_by_staff_id" := Str(staffId)]
  }

  /**
   * What storing a comment with a fresh id yields: the validator's errors,
   * or a live row for the given blog written by `userId`.
   */
  function NewComment(id: string, data: CommentInput, userId: string, lib: Libraries): (r: Result<Comment>)
    ensures r.Failure? <==> lib.validate(CommentDocument(id, data, userId), CommentSchema) != []
    ensures r.Failure? ==> r.error == SchemaValidation(ParamsOf(lib.validate(CommentDocument(id, data, userId), CommentSchema)))
    ensures r.Success? ==>
      && r.value.id == id && r.value.comment == data.comment && r.value.blogId == data.blogId
      && r.value.createdByUserId == userId && !r.value.deleted
  {
    var bag := lib.validate(CommentDocument(id, data, userId), CommentSchema);
    if bag != [] then Failure(SchemaValidation(ParamsOf(bag)))
    else Success(Comment(id, data.comment, data.blogId, userId, false))
  }

  /**
   * What storing a review with a fresh id yields: the validator's errors,
   * or a live row for the given blog written by staff member `staffId`.
   */
  function NewReview(id: string, data: ReviewInput, staffId: string, lib: Libraries): (r: Result<Entities.Review>)
    ensures r.Failure? <==> lib.validate(ReviewDocument(id, data, staffId), ReviewSchema) != []
    ensures r.Failure? ==> r.error == SchemaValidation(ParamsOf(lib.validate(ReviewDocument(id, data, staffId), ReviewSchema)))
    ensures r.Success? ==>
      && r.value.id == id && r.value.review == data.review && r.value.blogId == data.blogId
      && r.value.createdByStaffId == staffId && !r.value.deleted
  {
    var bag := lib.validate(ReviewDocument(id, data, staffId), ReviewSchema);
    if bag != [] then Failure(SchemaValidation(ParamsOf(bag)))
    else Success(Entities.Review(id, data.review, data.blogId, staffId, false))
  }

  /**
   * `CommentService.Create`: draw an id, validate, then append one comment
   * row by the session user. A rejected document leaves the table as it was.
   */
  method Create(db: Store, gen: Generator, ctx: Ctx, data: CommentInput, lib: Libraries) returns (r: Result<Comment>)
    requires gen.Valid() && db.Valid(gen.issued)
    requires ctx.session.Some?
    modifies db`comments, gen
    ensures gen.Valid() && db.Valid(gen.issued)
    ensures gen.next == old(gen.next) + 1
    ensures r == NewComment(Decimal(old(gen.next)), data, ctx.session.value.id, lib)
    ensures r.Success? ==> r.value.id !in old(gen.issued)
    ensures db.comments == if r.Success? then old(db.comments) + [r.value] else old(db.comments)
  {
    var user := ctx.session.value;
    ghost var issued0 := gen.issued;
    var id := gen.Generate();
    ValidGrows(db, issued0, gen.issued);
    var document := CommentDocument(id, data, user.id);
    var valid := IsValidSchema(document, CommentSchema, NoOptions, lib);
    if valid.Failure? {
      return Failure(valid.error);
    }
    var row := Comment(id, data.comment, data.blogId, user.id, false);
    db.InsertComment(row, gen.issued);
    r := Success(row);
  }

  /**
   * `CommentService.Review`: draw an id, validate, then append one review
   * row by the context's staff member.
   */
  method Review(db: Store, gen: Generator, ctx: Ctx, data: ReviewInput, lib: Libraries) returns (r: Result<Entities.Review>)
    requires gen.Valid() && db.Valid(gen.issued)
    requires ctx.staff.Some?
    modifies db`reviews, gen
    ensures gen.Valid() && db.Valid(gen.issued)
    ensures gen.next == old(gen.next) + 1
    ensures r == NewReview(Decimal(old(gen.next)), data, ctx.staff.value.staff.id, lib)
    ensures r.Success? ==> r.value.id !in old(gen.issued)
    ensures db.reviews == if r.Success? then old(db.reviews) + [r.value] else old(db.reviews)
  {
    var staff := ctx.staff.value.staff;
    ghost var issued0 := gen.issued;
    var id := gen.Generate();
    ValidGrows(db, issued0, gen.issued);
    var document := ReviewDocument(id, data, staff.id);
    var valid := IsValidSchema(document, ReviewSchema, NoOptions, lib);
    if valid.Failure? {
      return Failure(valid.error);
    }
    var row := Entities.Review(id, data.review, data.blogId, staff.id, false);
    db.InsertReview(row, gen.issued);
    r := Success(row);
  }
}

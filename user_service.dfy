/** `UserService`: creating users with a normalised, unique email, and patching them. */
module UserService {
  import opened Wrappers
  import opened Errors
  import opened Ids
  import opened Entities
  import opened Foreign
  import opened Helper
  import opened Database

  /** The validation rules of a new user document. */
  const UserSchema: Rules := map[
    "id" := Items(["string", "required"]),
    "first_name" := Items(["string"]),
    "last_name" := Items(["string"]),
    "email" := Items(["string", "required"]),
    "password" := Items(["string", "required"]),
    "created_at" := Items(["date"]),
    "updated_at" := Items(["date"])]

  /** The sign-up data (`IUserCreate`); timestamps are not modelled. */
  datatype UserCreate = UserCreate(firstName: Option<string>, lastName: Option<string>, email: string, password: string)

  /** An optional field as the validator sees it: a string, or `undefined`. */
  function OptionalText(o: Option<string>): (v: Value)
    ensures o.Some? <==> v.Str?
    ensures o.Some? ==> v == Str(o.value)
  {
    match o
    case Some(s) => Str(s)
    case None => Undefined
  }

  /** The document `Create` validates: the fresh id, the names, the sanitised email, the plaintext password. */
  function NewUserDocument(id: string, data: UserCreate, email: string): Document
  {
    map["id" := Str(id), "first_name" := OptionalText(data.firstName), "last_name" := OptionalText(data.lastName),
        "email" := Str(email), "password" := Str(data.password)]
  }

  /**
   * The checks `Create` runs before it draws an id: the email must
   * normalise, and no user may have it as id or as email.
   */
  function CreateChecks(db: Store, data: UserCreate, lib: Libraries): (r: Result<string>)
    reads db
    ensures r.Success? ==> GetSanitizedEmail(data.email, lib) == Some(r.value)
    ensures r.Success? ==> forall u :: u in db.users ==> u.id != r.value && u.email != r.value
    ensures GetSanitizedEmail(data.email, lib).None? ==> r == Failure(InvalidEmail)
    ensures r.Failure? && GetSanitizedEmail(data.email, lib).Some? ==>
      && r.error == ResourceExists(EmailResource)
      && exists u :: u in db.users && (u.id == GetSanitizedEmail(data.email, lib).value || u.email == GetSanitizedEmail(data.email, lib).value)
  {
    match GetSanitizedEmail(data.email, lib)
    case None => Failure(InvalidEmail)
    case Some(e) => if db.UserByIdOrEmail(e).Some? then Failure(ResourceExists(EmailResource)) else Success(e)
  }

  /**
   * `UserService.Create`: the checks, then the insertion. A document the
   * validator rejects has still consumed an id.
   */
  method Create(db: Store, gen: Generator, data: UserCreate, lib: Libraries) returns (r: Result<User>)
    requires gen.Valid() && db.Valid(gen.issued)
    modifies db`users, gen
    ensures gen.Valid() && db.Valid(gen.issued)
    ensures old(CreateChecks(db, data, lib)).Failure? ==>
      && r == Failure(old(CreateChecks(db, data, lib)).error)
      && db.users == old(db.users) && gen.next == old(gen.next)
    ensures old(CreateChecks(db, data, lib)).Success? ==>
      && gen.next == old(gen.next) + 1
      && r == NewUser(Decimal(old(gen.next)), data, old(CreateChecks(db, data, lib)).value, lib)
      && db.users == if r.Success? then old(db.users) + [r.value] else old(db.users)
    ensures r.Success? ==> r.value.id !in old(gen.issued)
  {
    var checked := CreateChecks(db, data, lib);
    if checked.Failure? {
      return Failure(checked.error);
    }
    r := Insert(db, gen, data, checked.value, lib);
  }

  /**
   * What the insertion yields for a fresh id: the validator's errors, or the
   * stored row, which has the sanitised email and the hashed password.
   */
  function NewUser(id: string, data: UserCreate, email: string, lib: Libraries): (r: Result<User>)
    ensures r.Failure? <==> lib.validate(NewUserDocument(id, data, email), UserSchema) != []
    ensures r.Failure? ==> r.error == SchemaValidation(ParamsOf(lib.validate(NewUserDocument(id, data, email), UserSchema)))
    ensures r.Success? ==> r.value == User(id, data.firstName, data.lastName, email, lib.hashPassword(data.password), None)
  {
    var bag := lib.validate(NewUserDocument(id, data, email), UserSchema);
    if bag != [] then Failure(SchemaValidation(ParamsOf(bag)))
    else Success(User(id, data.firstName, data.lastName, email, lib.hashPassword(data.password), None))
  }

  /** Draw an id, validate the document, hash the password and store the row. */
  method Insert(db: Store, gen: Generator, data: UserCreate, email: string, lib: Libraries) returns (r: Result<User>)
    requires gen.Valid() && db.Valid(gen.issued)
    requires forall u :: u in db.users ==> u.email != email
    modifies db`users, gen
    ensures gen.Valid() && db.Valid(gen.issued)
    ensures gen.next == old(gen.next) + 1
    ensures r.Success? ==> r.value.id !in old(gen.issued)
    ensures r == NewUser(Decimal(old(gen.next)), data, email, lib)
    ensures db.users == if r.Success? then old(db.users) + [r.value] else old(db.users)
  {
    ghost var issued0 := gen.issued;
    var id := gen.Generate();
    ValidGrows(db, issued0, gen.issued);
    var document := NewUserDocument(id, data, email);
    var valid := IsValidSchema(document, UserSchema, NoOptions, lib);
    if valid.Failure? {
      return Failure(valid.error);
    }
    var user := User(id, data.firstName, data.lastName, email, lib.hashPassword(data.password), None);
    db.InsertUser(user, gen.issued);
    r := Success(user);
  }

  /** After a successful `Create`, looking the normalised email up finds the new row. */
  lemma CreatedUserFound(db: Store, before: seq<User>, user: User)
    requires db.users == before + [user]
    requires forall u :: u in before ==> u.id != user.email && u.email != user.email
    ensures db.UserByIdOrEmail(user.email) == Some(user)
  {
    assert db.users[|before|] == user;
  }

  /** A partial update (`IUserUpdate`): id and email cannot be patched. */
  datatype UserUpdate = UserUpdate(
    firstName: Patch<Option<string>>,
    lastName: Patch<Option<string>>,
    password: Patch<string>,
    activeOrganizationId: Patch<Option<string>>)

  const NoChange: UserUpdate := UserUpdate(Keep, Keep, Keep, Keep)

  /** The row after the update: fields the patch sets are replaced, all others kept. */
  function ApplyUpdate(u: User, d: UserUpdate): (v: User)
    ensures v.id == u.id && v.email == u.email
    ensures d.firstName.Keep? ==> v.firstName == u.firstName
    ensures d.firstName.Set? ==> v.firstName == d.firstName.value
    ensures d.lastName.Keep? ==> v.lastName == u.lastName
    ensures d.lastName.Set? ==> v.lastName == d.lastName.value
    ensures d.password.Keep? ==> v.password == u.password
    ensures d.password.Set? ==> v.password == d.password.value
    ensures d.activeOrganizationId.Keep? ==> v.activeOrganizationId == u.activeOrganizationId
    ensures d.activeOrganizationId.Set? ==> v.activeOrganizationId == d.activeOrganizationId.value
  {
    u.(firstName := d.firstName.Apply(u.firstName),
       lastName := d.lastName.Apply(u.lastName),
       password := d.password.Apply(u.password),
       activeOrganizationId := d.activeOrganizationId.Apply(u.activeOrganizationId))
  }

  /** An empty patch leaves a row as it is, and applying a patch twice is applying it once. */
  lemma ApplyUpdateLaws(u: User, d: UserUpdate)
    ensures ApplyUpdate(u, NoChange) == u
    ensures ApplyUpdate(ApplyUpdate(u, d), d) == ApplyUpdate(u, d)
  {
  }

  /** The patch actually written: a new password is stored hashed, the other fields as given. */
  function StoredPatch(data: UserUpdate, lib: Libraries): (d: UserUpdate)
    ensures d.firstName == data.firstName && d.lastName == data.lastName
    ensures d.activeOrganizationId == data.activeOrganizationId
    ensures d.password.Set? <==> data.password.Set?
    ensures d.password.Set? ==> d.password.value == lib.hashPassword(data.password.value)
  {
    data.(password := if data.password.Set? then Set(lib.hashPassword(data.password.value)) else Keep)
  }

  /**
   * `UserService.Update`: `id` must name a user (by id or email), and the
   * update itself addresses the row by id only.
   */
  method Update(db: Store, ghost issued: set<string>, id: string, data: UserUpdate, lib: Libraries) returns (r: Result<User>)
    requires db.Valid(issued)
    modifies db`users
    ensures db.Valid(issued)
    ensures old(db.UserByIdOrEmail(id)).None? ==> r == Failure(ResourceNotFound(UserResource)) && db.users == old(db.users)
    ensures old(db.UserByIdOrEmail(id)).Some? && old(db.UserIndex(id)).None? ==>
      r == Failure(RecordNotFound) && db.users == old(db.users)
    ensures old(db.UserIndex(id)).Some? ==>
      var i := old(db.UserIndex(id)).value;
      && r == Success(ApplyUpdate(old(db.users)[i], StoredPatch(data, lib)))
      && db.users == old(db.users)[i := r.value]
  {
    var existing := db.UserByIdOrEmail(id);
    if existing.None? {
      return Failure(ResourceNotFound(UserResource));
    }
    var document := NoChange;
    if data.firstName.Set? {
      document := document.(firstName := data.firstName);
    }
    if data.lastName.Set? {
      document := document.(lastName := data.lastName);
    }
    if data.password.Set? {
      document := document.(password := Set(lib.hashPassword(data.password.value)));
    }
    if data.activeOrganizationId.Set? {
      document := document.(activeOrganizationId := data.activeOrganizationId);
    }
    assert document == StoredPatch(data, lib);
    var index := db.UserIndex(id);
    if index.None? {
      return Failure(RecordNotFound);
    }
    var updated := ApplyUpdate(db.users[index.value], document);
    db.ReplaceUser(index.value, updated, issued);
    r := Success(updated);
  }
}

/** The user handlers: the role-ranked listing, fetch by id, the partial
    update and the soft delete. The id check `isValidObjectId` is a parameter:
    what makes an id well formed is the storage library's business. */
module UserController {
  import opened Common
  import opened UserStore

  const RequesterNotFound := ApiError(404, "Requesting user not found")
  const NotAuthorized := ApiError(403, "You are not authorized to access this resource")
  const FetchFailed := ApiError(500, "An error occurred while fetching users")
  const InvalidUserId := ApiError(400, "Invalid user ID")
  const UserNotFoundById := ApiError(404, "user not found")
  const UserNotFound := ApiError(404, "User not found")

  /** The `switch` on the requesting user's role: the target roles it may
      list, or `None` for the `default` branch that refuses. */
  function RoleFilter(actor: Role): (r: Option<set<Role>>)
    ensures r.Some? ==> r.value == RolesBelow(actor)
    ensures r.None? <==> RolesBelow(actor) == {}
  {
    match actor
    case SuperAdmin => Some({DistrictAdmin, FacilityAdmin, DepartmentUser})
    case DistrictAdmin => Some({FacilityAdmin, DepartmentUser})
    case FacilityAdmin => Some({DepartmentUser})
    case DepartmentUser => None
  }

  /** The query of the listing: the role filter spread together with
      `isActive: true, isDeleted: false`. */
  function ListingQuery(roles: set<Role>): Query
  {
    Query(roles, true, false)
  }

  /** Reference definition of what an actor may see in a listing: an
      active, not deleted user whose role ranks strictly below the actor's. */
  predicate Listed(actor: Role, u: User)
  {
    Rank(u.role) < Rank(actor) && u.isActive && !u.isDeleted
  }

  /** The body of the `try` in `getAllUsers`, with the errors it raises
      left as raised. */
  function ListUsers(db: UserCollection, requesterId: Id): (r: Result<map<Id, User>>)
    reads db
    ensures requesterId !in db.docs ==> r == Err(RequesterNotFound)
    ensures requesterId in db.docs && r.Err? ==> r == Err(NotAuthorized)
    ensures r.Ok? <==> requesterId in db.docs && RolesBelow(db.docs[requesterId].role) != {}
    ensures r.Ok? ==> forall id :: id in db.docs ==> (id in r.value <==> Listed(db.docs[requesterId].role, db.docs[id]))
    ensures r.Ok? ==> r.value.Keys <= db.docs.Keys && forall id :: id in r.value ==> r.value[id] == db.docs[id]
  {
    match db.FindById(requesterId)
    case None => Err(RequesterNotFound)
    case Some(requester) =>
      match RoleFilter(requester.role)
      case None => Err(NotAuthorized)
      case Some(roles) => Ok(db.Find(ListingQuery(roles)))
  }

  /** `getAllUsers` as written: the `catch` replaces every error raised in
      the `try` by a 500. */
  function GetAllUsers(db: UserCollection, requesterId: Id): (r: Result<map<Id, User>>)
    reads db
    ensures r.Err? ==> r.error == FetchFailed
    ensures r.Ok? <==> requesterId in db.docs && RolesBelow(db.docs[requesterId].role) != {}
    ensures r.Ok? ==> forall id :: id in db.docs ==> (id in r.value <==> Listed(db.docs[requesterId].role, db.docs[id]))
    ensures r.Ok? ==> r.value.Keys <= db.docs.Keys && forall id :: id in r.value ==> r.value[id] == db.docs[id]
  {
    match ListUsers(db, requesterId)
    case Ok(users) => Ok(users)
    case Err(_) => Err(FetchFailed)
  }

  /** A requester whose role ranks lowest is refused with 403 by the `try`
      body, but `getAllUsers` answers 500; a requester that does not resolve
      gets 404 from the body and 500 from the handler. */
  lemma GetAllUsersMasksRefusals(db: UserCollection, requesterId: Id)
    requires requesterId !in db.docs || db.docs[requesterId].role == DepartmentUser
    ensures ListUsers(db, requesterId).Err? && ListUsers(db, requesterId).error.statusCode in {403, 404}
    ensures GetAllUsers(db, requesterId) == Err(FetchFailed)
  {
  }

  /** `getUserById`: the stored record, whatever its lifecycle flags. */
  function GetUserById(db: UserCollection, isValidObjectId: Id -> bool, userId: Id): (r: Result<User>)
    reads db
    ensures !isValidObjectId(userId) ==> r == Err(InvalidUserId)
    ensures isValidObjectId(userId) && userId !in db.docs ==> r == Err(UserNotFoundById)
    ensures r.Ok? <==> isValidObjectId(userId) && userId in db.docs
    ensures r.Ok? ==> r.value == db.docs[userId]
  {
    if !isValidObjectId(userId) then Err(InvalidUserId)
    else match db.FindById(userId)
      case None => Err(UserNotFoundById)
      case Some(user) => Ok(user)
  }

  /** The fields `updateUser` reads from the request body. */
  datatype UpdateBody = UpdateBody(fullName: Option<string>, email: Option<string>, mobileNumber: Option<string>)

  /** `updateData`: each body field that is supplied (truthy), nothing else. */
  function UpdatePatch(body: UpdateBody): (p: Patch)
    ensures p.isDeleted.None?
    ensures p.fullName.Some? <==> Supplied(body.fullName)
    ensures p.email.Some? <==> Supplied(body.email)
    ensures p.mobileNumber.Some? <==> Supplied(body.mobileNumber)
    ensures p.fullName.Some? ==> p.fullName == body.fullName
    ensures p.email.Some? ==> p.email == body.email
    ensures p.mobileNumber.Some? ==> p.mobileNumber == body.mobileNumber
  {
    Patch(if Supplied(body.fullName) then body.fullName else None,
          if Supplied(body.email) then body.email else None,
          if Supplied(body.mobileNumber) then body.mobileNumber else None,
          None)
  }

  /** The update writes exactly the supplied fields; role, password, refresh
      token and both lifecycle flags keep their values. */
  lemma UpdateWritesOnlySuppliedFields(u: User, body: UpdateBody)
    ensures var v := Apply(u, UpdatePatch(body));
      && (Supplied(body.fullName) ==> v.fullName == body.fullName.value)
      && (!Supplied(body.fullName) ==> v.fullName == u.fullName)
      && (Supplied(body.email) ==> v.email == body.email.value)
      && (!Supplied(body.email) ==> v.email == u.email)
      && (Supplied(body.mobileNumber) ==> v.mobileNumber == body.mobileNumber.value)
      && (!Supplied(body.mobileNumber) ==> v.mobileNumber == u.mobileNumber)
      && v.role == u.role && v.password == u.password && v.refreshToken == u.refreshToken
      && v.isActive == u.isActive && v.isDeleted == u.isDeleted
  {
  }

  /** `updateUser`: a malformed id is refused before the store is touched;
      otherwise the supplied fields are written to the record, which is
      returned, or 404 when the id does not resolve. */
  method UpdateUser(db: UserCollection, isValidObjectId: Id -> bool, userId: Id, body: UpdateBody)
    returns (r: Result<User>)
    modifies db
    ensures !isValidObjectId(userId) ==> r == Err(InvalidUserId) && db.docs == old(db.docs)
    ensures isValidObjectId(userId) ==> db.docs == Patched(old(db.docs), userId, UpdatePatch(body))
    ensures isValidObjectId(userId) && userId !in old(db.docs) ==> r == Err(UserNotFound)
    ensures r.Ok? <==> isValidObjectId(userId) && userId in old(db.docs)
    ensures r.Ok? ==> r.value == db.docs[userId] == Apply(old(db.docs)[userId], UpdatePatch(body))
  {
    if !isValidObjectId(userId) {
      return Err(InvalidUserId);
    }
    var updateData := UpdatePatch(body);
    var updated := db.FindByIdAndUpdate(userId, updateData);
    if updated.None? {
      return Err(UserNotFound);
    }
    r := Ok(updated.value);
  }

  /** The update document of the soft delete. */
  const DeletePatch := Patch(None, None, None, Some(true))

  /** The soft-delete update document sets `isDeleted` and nothing else. */
  lemma DeletePatchSetsOnlyDeleted(u: User)
    ensures Apply(u, DeletePatch) == u.(isDeleted := true)
  {
  }

  /** Soft delete flips one flag, keeps every record, and a second soft
      delete of the same id finds the record again and changes nothing. */
  lemma SoftDeleteIdempotent(docs: map<Id, User>, id: Id)
    requires id in docs
    ensures var once := Patched(docs, id, DeletePatch);
      && once.Keys == docs.Keys
      && once[id] == docs[id].(isDeleted := true)
      && Patched(once, id, DeletePatch) == once
  {
  }

  /** `deleteUser`: a malformed id is refused before the store is touched;
      otherwise the record's `isDeleted` is set and the record stays, or
      404 when the id does not resolve. */
  method DeleteUser(db: UserCollection, isValidObjectId: Id -> bool, userId: Id) returns (r: Result<()>)
    modifies db
    ensures !isValidObjectId(userId) ==> r == Err(InvalidUserId) && db.docs == old(db.docs)
    ensures isValidObjectId(userId) ==> db.docs == Patched(old(db.docs), userId, DeletePatch)
    ensures isValidObjectId(userId) && userId !in old(db.docs) ==> r == Err(UserNotFound)
    ensures r.Ok? <==> isValidObjectId(userId) && userId in old(db.docs)
    ensures r.Ok? ==> db.docs[userId] == old(db.docs)[userId].(isDeleted := true)
    ensures db.docs.Keys == old(db.docs).Keys
  {
    if !isValidObjectId(userId) {
      return Err(InvalidUserId);
    }
    var user := db.FindByIdAndUpdate(userId, DeletePatch);
    if user.None? {
      return Err(UserNotFound);
    }
    r := Ok(());
  }

  /** Two soft deletes of the same resolving id both succeed and leave the
      record deleted. */
  method DeleteUserTwice(db: UserCollection, isValidObjectId: Id -> bool, userId: Id)
    returns (first: Result<()>, second: Result<()>)
    requires isValidObjectId(userId) && userId in db.docs
    modifies db
    ensures first.Ok? && second.Ok?
    ensures db.docs == old(db.docs)[userId := old(db.docs)[userId].(isDeleted := true)]
  {
    first := DeleteUser(db, isValidObjectId, userId);
    second := DeleteUser(db, isValidObjectId, userId);
  }
}

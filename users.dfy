/**
 * The user-service: registration and a soft-delete lifecycle over the user
 * collection. A deleted user keeps its document; every later read, update or
 * delete of it is refused, and the listing leaves it out.
 */
module UserServiceImpl {
  import opened Wrappers

  type UserId = string

  /** The stored user document; `isDeleted` marks a soft delete. */
  datatype User = User(id: UserId, name: string, email: string, contact: string, isDeleted: bool)

  /** The fields a client supplies when registering or updating a user. */
  datatype UserRequest = UserRequest(name: string, email: string, contact: string)

  /** What the user-service returns: the document without its deletion flag. */
  datatype UserResponse = UserResponse(id: UserId, name: string, email: string, contact: string)

  /** The ways the lifecycle operations are refused. */
  datatype UserError =
    | UserNotFound(id: UserId)
    | UserDeleted
    | CannotUpdateDeletedUser
    | UserAlreadyDeleted

  /** The user collection, keyed by document id. */
  type Users = map<UserId, User>

  /** Every document is filed under its own id. */
  ghost predicate KeysMatch(users: Users) {
    forall id :: id in users ==> users[id].id == id
  }

  /** Explicit form of the entity-to-response field copy. */
  function AsResponse(u: User): UserResponse {
    UserResponse(u.id, u.name, u.email, u.contact)
  }

  class UserService {
    /** The user collection. */
    var users: Users

    ghost predicate Valid()
      reads this
    {
      KeysMatch(users)
    }

    constructor (initial: Users)
      requires KeysMatch(initial)
      ensures Valid() && users == initial
    {
      users := initial;
    }

    /**
     * `registerUser`: store the request's fields as a new, not deleted user
     * under the id the store generates.
     */
    method RegisterUser(request: UserRequest, id: UserId) returns (r: UserResponse)
      requires Valid() && id !in users
      modifies this
      ensures Valid()
      ensures users == old(users)[id := User(id, request.name, request.email, request.contact, false)]
      ensures r == UserResponse(id, request.name, request.email, request.contact)
    {
      var user := User(id, request.name, request.email, request.contact, false);
      users := users[id := user];
      r := AsResponse(user);
    }

    /** `getUserDetails`: unknown and soft-deleted users are refused. */
    function GetUserDetails(id: UserId): (r: Result<UserResponse, UserError>)
      reads this
      ensures id !in users ==> r == Failure(UserNotFound(id))
      ensures id in users && users[id].isDeleted ==> r == Failure(UserDeleted)
      ensures r.Success? <==> id in users && !users[id].isDeleted
      ensures r.Success? ==> r.value == AsResponse(users[id])
    {
      if id !in users then Failure(UserNotFound(id))
      else if users[id].isDeleted then Failure(UserDeleted)
      else Success(AsResponse(users[id]))
    }

    /** `getAllUsersDetails`: exactly the users that are not soft-deleted. */
    function GetAllUsersDetails(): (r: set<UserResponse>)
      requires Valid()
      reads this
      ensures forall id :: id in users ==> (AsResponse(users[id]) in r <==> !users[id].isDeleted)
      ensures forall x :: x in r ==> x.id in users && !users[x.id].isDeleted && x == AsResponse(users[x.id])
    {
      set id | id in users && !users[id].isDeleted :: AsResponse(users[id])
    }

    /**
     * The two read paths agree: a user is listed exactly when its details can
     * be fetched, and the listing holds what the lookup returns.
     */
    lemma ListingMatchesLookup(id: UserId)
      requires Valid()
      ensures GetUserDetails(id).Success? <==> exists x :: x in GetAllUsersDetails() && x.id == id
      ensures GetUserDetails(id).Success? ==> GetUserDetails(id).value in GetAllUsersDetails()
    {
      if id in users && !users[id].isDeleted {
        assert AsResponse(users[id]) in GetAllUsersDetails();
      }
    }

    /**
     * `updateUserDetails`: unknown and soft-deleted users are refused;
     * otherwise the request's fields overwrite the stored ones.
     */
    method UpdateUserDetails(id: UserId, request: UserRequest) returns (r: Result<UserResponse, UserError>)
      requires Valid()
      modifies this
      ensures Valid()
      ensures id !in old(users) ==> r == Failure(UserNotFound(id)) && users == old(users)
      ensures id in old(users) && old(users)[id].isDeleted ==>
        r == Failure(CannotUpdateDeletedUser) && users == old(users)
      ensures id in old(users) && !old(users)[id].isDeleted ==>
        users == old(users)[id := User(id, request.name, request.email, request.contact, false)]
        && r == Success(UserResponse(id, request.name, request.email, request.contact))
    {
      if id !in users { return Failure(UserNotFound(id)); }
      var user := users[id];
      if user.isDeleted { return Failure(CannotUpdateDeletedUser); }
      user := user.(name := request.name, email := request.email, contact := request.contact);
      users := users[id := user];
      r := Success(AsResponse(user));
    }

    /**
     * `deleteUser`: unknown and already deleted users are refused; otherwise
     * the user is marked deleted and kept, and no other user changes.
     */
    method DeleteUser(id: UserId) returns (r: Outcome<UserError>)
      requires Valid()
      modifies this
      ensures Valid()
      ensures id !in old(users) ==> r == Fail(UserNotFound(id)) && users == old(users)
      ensures id in old(users) && old(users)[id].isDeleted ==>
        r == Fail(UserAlreadyDeleted) && users == old(users)
      ensures id in old(users) && !old(users)[id].isDeleted ==>
        r == Pass && users == old(users)[id := old(users)[id].(isDeleted := true)]
      ensures users.Keys == old(users).Keys
    {
      if id !in users { return Fail(UserNotFound(id)); }
      var user := users[id];
      if user.isDeleted { return Fail(UserAlreadyDeleted); }
      users := users[id := user.(isDeleted := true)];
      r := Pass;
    }
  }

  /**
   * Message texts the service raises literally; the not-found text comes from a
   * constants class that is not part of this model.
   */
  function Message(e: UserError): (r: Option<string>)
    ensures r.None? <==> e.UserNotFound?
  {
    match e
    case UserNotFound(_) => None
    case UserDeleted => Some("User has been deleted")
    case CannotUpdateDeletedUser => Some("Cannot update a deleted user")
    case UserAlreadyDeleted => Some("User is already deleted")
  }

  /**
   * Deletion is final: once a user has been deleted, a second delete, a
   * lookup and an update are all refused, and the user leaves the listing
   * while its document stays.
   */
  method DeleteIsFinal(service: UserService, id: UserId, request: UserRequest)
    returns (first: Outcome<UserError>, second: Outcome<UserError>, update: Result<UserResponse, UserError>)
    requires service.Valid() && id in service.users
    modifies service
    ensures service.Valid()
    ensures first == Pass <==> !old(service.users)[id].isDeleted
    ensures second == Fail(UserAlreadyDeleted)
    ensures update == Failure(CannotUpdateDeletedUser)
    ensures service.GetUserDetails(id) == Failure(UserDeleted)
    ensures id in service.users && service.users[id].isDeleted
    ensures forall x :: x in service.GetAllUsersDetails() ==> x.id != id
  {
    first := service.DeleteUser(id);
    second := service.DeleteUser(id);
    update := service.UpdateUserDetails(id, request);
  }
}

/**
 * `UsersController`: the five actions of `api/users` over the user store.
 * Each action returns the result object the controller builds; its status
 * code is `ActionResult.StatusCode()`.
 */
module Controllers {
  import opened Wrappers
  import opened Text
  import opened Models
  import opened UserStore

  /** Why the database refused an operation. */
  datatype StoreError =
    | Failed(message: string)   // any database failure, with its message
    | DuplicateKey(key: int)    // a record with that key is already stored

  /** The action results the controller produces. */
  datatype ActionResult =
    | Ok(users: seq<User>)                              // 200 with a page of users
    | OkUser(user: User)                                // 200 with one user
    | Created(user: User)                               // 201, CreatedAtAction(GetUser)
    | NoContent                                         // 204
    | BadRequest(message: string)                       // 400
    | NotFound(message: string)                         // 404
    | ServerError(message: string, details: StoreError) // 500
  {
    function StatusCode(): int
    {
      match this
      case Ok(_) => 200
      case OkUser(_) => 200
      case Created(_) => 201
      case NoContent => 204
      case BadRequest(_) => 400
      case NotFound(_) => 404
      case ServerError(_, _) => 500
    }
  }

  /** The defaults of the `page` and `pageSize` query parameters. */
  const DefaultPage := 1
  const DefaultPageSize := 10

  /** A listing query that gives neither `page` nor `pageSize` is bound to
      page 1 of size 10, and so lists the first ten stored records (all of
      them when fewer are stored). */
  lemma OmittedPaging(s: seq<User>)
    ensures Page(s, DefaultPage, DefaultPageSize) == s[..if |s| < 10 then |s| else 10]
  {
    var p := Page(s, 1, 10);
    assert p == s[..|p|];
  }

  const BadPaging := "Page and pageSize must be greater than 0."
  const EmptyPage := "No users found for the specified page and page size."
  const FieldsRequired := "Name and Email are required."
  const InvalidEmail := "Invalid Email address."
  const IdMismatch := "The provided ID does not match the user's ID."

  function UserNotFound(id: int): (message: string)
  {
    "User with ID " + IntString(id) + " not found."
  }

  /** The controller's field checks, in the order `CreateUser` and `UpdateUser`
      run them: a blank Name or Email first, then the email predicate. */
  function CheckFields(user: User, isEmail: string -> bool): (r: Option<string>)
    ensures r == None <==> Required(user.name) && Required(user.email) && isEmail(user.email.value)
    ensures !Required(user.name) || !Required(user.email) ==> r == Some(FieldsRequired)
    ensures Required(user.name) && Required(user.email) && !isEmail(user.email.value) ==> r == Some(InvalidEmail)
  {
    if IsNullOrWhiteSpace(user.name) || IsNullOrWhiteSpace(user.email) then Some(FieldsRequired)
    else if !isEmail(user.email.value) then Some(InvalidEmail)
    else None
  }

  /** The checks accept every record whose annotations hold: they are no
      stricter than the model's constraints. */
  lemma ValidUsersPassChecks(user: User, isEmail: string -> bool)
    requires ValidUser(user, isEmail)
    ensures CheckFields(user, isEmail) == None
  {
  }

  /** The checks are weaker than the annotations: a 51-character Name and a
      missing Role get through them. */
  lemma ChecksIgnoreLengthAndRole(isEmail: string -> bool)
    requires isEmail("a@b")
    ensures var u := User(1, Some(seq(51, _ => 'x')), Some("a@b"), None);
      CheckFields(u, isEmail) == None && !ValidUser(u, isEmail)
  {
    var u := User(1, Some(seq(51, _ => 'x')), Some("a@b"), None);
    assert !IsWhiteSpace(u.name.value[0]);
    assert !IsWhiteSpace(u.email.value[0]);
  }

  class UsersController {
    /** The `Users` set, in store order. */
    var users: seq<User>
    /** `EmailAddressAttribute.IsValid` on a non-null string. */
    const isEmail: string -> bool

    ghost predicate Valid()
      reads this
    {
      UniqueIds(users)
    }

    constructor (store: seq<User>, isEmail: string -> bool)
      requires UniqueIds(store)
      ensures Valid() && users == store && this.isEmail == isEmail
    {
      users := store;
      this.isEmail := isEmail;
    }

    /** GET api/users?page=&pageSize=, after the query parameters are bound
        (an omitted one takes its default, see `OmittedPaging`). `fault` is the
        failure the database raises on the query, if any. */
    method GetUsers(page: int, pageSize: int, fault: Option<string>) returns (r: ActionResult)
      ensures page <= 0 || pageSize <= 0 ==> r == BadRequest(BadPaging)
      ensures page > 0 && pageSize > 0 && fault.Some? ==>
        r == ServerError("An error occurred while retrieving users.", Failed(fault.value))
      ensures page > 0 && pageSize > 0 && fault.None? ==>
        && (r.NotFound? <==> |users| <= (page - 1) * pageSize)
        && (r.NotFound? ==> r == NotFound(EmptyPage))
        && (!r.NotFound? ==> r.Ok? && r.users == Page(users, page, pageSize))
      ensures r.Ok? ==> 0 < |r.users| <= pageSize
      ensures r.Ok? ==> forall k :: 0 <= k < |r.users| ==> r.users[k] == users[(page - 1) * pageSize + k]
    {
      if page <= 0 || pageSize <= 0 {
        return BadRequest(BadPaging);
      }
      if fault.Some? {
        return ServerError("An error occurred while retrieving users.", Failed(fault.value));
      }
      var found := Page(users, page, pageSize);
      if |found| == 0 {
        r := NotFound(EmptyPage);
      } else {
        r := Ok(found);
      }
    }

    /** GET api/users/{id}. */
    method GetUser(id: int, fault: Option<string>) returns (r: ActionResult)
      requires Valid()
      ensures fault.Some? ==> r == ServerError("An error occurred while retrieving the user.", Failed(fault.value))
      ensures fault.None? ==> forall u :: r == OkUser(u) <==> u in users && u.id == id
      ensures fault.None? && (forall u :: u in users ==> u.id != id) ==> r == NotFound(UserNotFound(id))
      ensures r.StatusCode() == 200 || r.StatusCode() == 404 || r.StatusCode() == 500
    {
      if fault.Some? {
        return ServerError("An error occurred while retrieving the user.", Failed(fault.value));
      }
      var user := Find(users, id);
      if user.None? {
        r := NotFound(UserNotFound(id));
      } else {
        r := OkUser(user.value);
      }
      forall u ensures r == OkUser(u) <==> u in users && u.id == id {
        FindExactly(users, id, u);
      }
    }

    /** POST api/users. `freshKey` is the key the store generates for a record
        whose Id is 0; `fault` the failure the database raises on saving. */
    method CreateUser(user: User, freshKey: int, fault: Option<string>) returns (r: ActionResult)
      requires Valid()
      modifies this
      ensures Valid()
      ensures CheckFields(user, isEmail).Some? ==>
        r == BadRequest(CheckFields(user, isEmail).value) && users == old(users)
      ensures var stored := if user.id == 0 then user.(id := freshKey) else user;
        CheckFields(user, isEmail).None? ==>
          if fault.Some? then
            r == ServerError("An error occurred while creating the user.", Failed(fault.value)) && users == old(users)
          else if Find(old(users), stored.id).Some? then
            r == ServerError("An error occurred while creating the user.", DuplicateKey(stored.id)) && users == old(users)
          else
            && r == Created(stored) && users == old(users) + [stored]
            && Find(users, stored.id) == Some(stored)
            && forall k :: k != stored.id ==> Find(users, k) == Find(old(users), k)
    {
      var check := CheckFields(user, isEmail);
      if check.Some? {
        return BadRequest(check.value);
      }
      var stored := if user.id == 0 then user.(id := freshKey) else user;
      if fault.Some? {
        return ServerError("An error occurred while creating the user.", Failed(fault.value));
      }
      if Find(users, stored.id).Some? {
        return ServerError("An error occurred while creating the user.", DuplicateKey(stored.id));
      }
      AppendFrame(users, stored);
      users := users + [stored];
      r := Created(stored);
    }

    /** PUT api/users/{id}. `fault` is a database failure on saving, other
        than the concurrency failure of a missing record. */
    method UpdateUser(id: int, user: User, fault: Option<string>) returns (r: ActionResult)
      requires Valid()
      modifies this
      ensures Valid()
      ensures id != user.id ==> r == BadRequest(IdMismatch) && users == old(users)
      ensures id == user.id && CheckFields(user, isEmail).Some? ==>
        r == BadRequest(CheckFields(user, isEmail).value) && users == old(users)
      ensures id == user.id && CheckFields(user, isEmail).None? ==>
        if fault.Some? then
          r == ServerError("An error occurred while updating the user.", Failed(fault.value)) && users == old(users)
        else if Find(old(users), id).None? then
          r == NotFound(UserNotFound(id)) && users == old(users)
        else
          && r == NoContent
          && users == old(users)[IndexOf(old(users), id).value := user]
          && Find(users, id) == Some(user)
          && forall k :: k != id ==> Find(users, k) == Find(old(users), k)
    {
      if id != user.id {
        return BadRequest(IdMismatch);
      }
      var check := CheckFields(user, isEmail);
      if check.Some? {
        return BadRequest(check.value);
      }
      if fault.Some? {
        return ServerError("An error occurred while updating the user.", Failed(fault.value));
      }
      var i := IndexOf(users, id);
      if i.None? {
        return NotFound(UserNotFound(id));
      }
      ReplaceFrame(users, i.value, user);
      users := users[i.value := user];
      r := NoContent;
    }

    /** DELETE api/users/{id}. */
    method DeleteUser(id: int, fault: Option<string>) returns (r: ActionResult)
      requires Valid()
      modifies this
      ensures Valid()
      ensures fault.Some? ==>
        r == ServerError("An error occurred while deleting the user.", Failed(fault.value)) && users == old(users)
      ensures fault.None? && Find(old(users), id).None? ==> r == NotFound(UserNotFound(id)) && users == old(users)
      ensures fault.None? && Find(old(users), id).Some? ==>
        && r == NoContent
        && (var i := IndexOf(old(users), id).value; users == old(users)[..i] + old(users)[i + 1..])
        && Find(users, id).None?
        && forall k :: k != id ==> Find(users, k) == Find(old(users), k)
    {
      if fault.Some? {
        return ServerError("An error occurred while deleting the user.", Failed(fault.value));
      }
      var i := IndexOf(users, id);
      if i.None? {
        return NotFound(UserNotFound(id));
      }
      RemoveFrame(users, i.value);
      users := users[..i.value] + users[i.value + 1..];
      r := NoContent;
    }
  }
}

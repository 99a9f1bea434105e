/**
 * The user handlers of the service's earlier revision (main.go), routed under
 * /user without authentication. The user record is model.go's `user`: an id
 * and a name. The store is a parameter; each handler's outcome records the
 * store calls it made.
 */
module EarlyApp {
  import opened GoText
  import opened Wrappers
  import opened Strconv
  import opened Http

  datatype User = User(id: int, name: GoString)

  /** The user store: each call gets the handler's `user` and fills it or fails. */
  datatype Store = Store(createUser: User -> Result<User>, getUser: User -> Result<User>)

  datatype Call = StoreCreate(user: User) | StoreGet(user: User)

  datatype Outcome = Outcome(response: Response<User>, calls: seq<Call>)

  /** Names must be shorter than this many bytes. */
  const MaxNameBytes := 255

  /**
   * `createUser`: the `name` query value of 255 bytes or more is refused with
   * 400 before the store is called; a store failure is 500; success echoes
   * the user the store filled in.
   */
  function CreateUser(name: GoString, store: Store): (r: Outcome)
    ensures |name| >= MaxNameBytes ==>
      r == Outcome(RespondWithError(StatusBadRequest, "query parameter is invalid."), [])
    ensures |name| < MaxNameBytes ==> r.calls == [StoreCreate(User(0, name))]
    ensures |name| < MaxNameBytes && store.createUser(User(0, name)).Failed? ==>
      r.response == RespondWithError(StatusInternalServerError, "User could not be created.")
    ensures r.response.status == StatusOK <==> |name| < MaxNameBytes && store.createUser(User(0, name)).Ok?
    ensures r.response.status == StatusOK ==>
      r.response == RespondWithJson(StatusOK, store.createUser(User(0, name)).value)
    ensures Enveloped(r.response)
  {
    if |name| >= MaxNameBytes then
      Outcome(RespondWithError(StatusBadRequest, "query parameter is invalid."), [])
    else
      var u := User(0, name);
      match store.createUser(u)
      case Failed(_) => Outcome(RespondWithError(StatusInternalServerError, "User could not be created."), [StoreCreate(u)])
      case Ok(created) => Outcome(RespondWithJson(StatusOK, created), [StoreCreate(u)])
  }

  /**
   * model.go's `createUser` always returns the error "TBD"; with that store no
   * name is ever created: long names get 400, all others 500.
   */
  lemma CreateUserWithStubStore(name: GoString, store: Store)
    requires forall u :: store.createUser(u) == Failed("TBD")
    ensures var r := CreateUser(name, store).response;
      r.status != StatusOK &&
      (|name| < MaxNameBytes ==> r == RespondWithError(StatusInternalServerError, "User could not be created.")) &&
      (|name| >= MaxNameBytes ==> r.status == StatusBadRequest)
  {
  }

  /** An ASCII name is refused exactly when it has 255 characters or more. */
  lemma CreateUserAsciiBoundary(name: string, store: Store)
    requires IsAscii(name)
    ensures CreateUser(Utf8(name), store).calls == [] <==> |name| >= MaxNameBytes
  {
  }

  /** `updateUser`: not implemented, whatever the request. */
  function UpdateUser(id: Atoi, store: Store): (r: Outcome)
    ensures r.calls == [] && r.response.status == StatusNotImplemented
    ensures IsErrorEnvelope(r.response) && ErrorOf(r.response) == "n/a"
  {
    Outcome(RespondWithError(StatusNotImplemented, "n/a"), [])
  }

  /**
   * `getUser`: an id Atoi rejects is 400; any failure of the lookup is 404
   * with the message "User not found" (no final period).
   */
  function GetUser(id: Atoi, store: Store): (r: Outcome)
    ensures id.Failed() ==> r == Outcome(RespondWithError(StatusBadRequest, "User ID is invalid."), [])
    ensures id.Parsed? ==> r.calls == [StoreGet(User(id.n, []))]
    ensures id.Parsed? && store.getUser(User(id.n, [])).Failed? ==>
      r.response == RespondWithError(StatusNotFound, "User not found")
    ensures r.response.status == StatusOK <==> id.Parsed? && store.getUser(User(id.n, [])).Ok?
    ensures r.response.status == StatusOK ==>
      r.response == RespondWithJson(StatusOK, store.getUser(User(id.n, [])).value)
    ensures Enveloped(r.response)
  {
    if id.Failed() then
      Outcome(RespondWithError(StatusBadRequest, "User ID is invalid."), [])
    else
      var u := User(id.n, []);
      match store.getUser(u)
      case Failed(_) => Outcome(RespondWithError(StatusNotFound, "User not found"), [StoreGet(u)])
      case Ok(found) => Outcome(RespondWithJson(StatusOK, found), [StoreGet(u)])
  }

  /** `deleteUser`: not implemented, whatever the request. */
  function DeleteUser(id: Atoi, store: Store): (r: Outcome)
    ensures r.calls == [] && r.response.status == StatusNotImplemented
    ensures IsErrorEnvelope(r.response) && ErrorOf(r.response) == "n/a"
  {
    Outcome(RespondWithError(StatusNotImplemented, "n/a"), [])
  }

  /** The test for an absent user: GET /user/15 with no such row reads 404 and "User not found". */
  lemma AbsentUserScenario(store: Store)
    requires store.getUser(User(15, [])).Failed?
    ensures var r := GetUser(Parsed(15), store).response;
      r.status == StatusNotFound && ErrorOf(r) == "User not found"
  {
  }
}

/**
 * The request-decision layer of the order service (handlers.go).
 *
 * Every handler is an early-return chain whose only effect is one response
 * write. Each is modelled as a function from the request's parsed inputs and
 * its collaborators to an Outcome: the response written and the calls made
 * to the store, bcrypt and the wrapped handler, in order. The store and the
 * bcrypt comparison are parameters (Db, Hasher); their internals are not part
 * of this model.
 */
module Handlers {
  import opened GoText
  import opened Wrappers
  import opened Strconv
  import opened Http
  import Utils

  datatype Item = Item(id: int, name: GoString)

  datatype Order = Order(id: int, user: GoString, userId: int, items: seq<Item>)

  datatype User = User(id: int, name: GoString, password: GoString, zipcode: int)

  /** The fields present in a JSON order body; `None` marks a field the body leaves out. */
  datatype OrderJson = OrderJson(id: Option<int>, user: Option<GoString>, userId: Option<int>, items: Option<seq<Item>>)

  /** What `json.NewDecoder(r.Body).Decode(&o)` made of the request body. */
  datatype Decoded = Decoded(json: OrderJson) | Malformed

  /** The values a successful handler marshals. */
  datatype Payload = UserValue(user: User) | OrderValue(order: Order) | OrderList(orders: seq<Order>)

  /**
   * `r.BasicAuth()`: the username and password of the Authorization header;
   * both are empty when the header is missing or malformed, since the handlers
   * ignore the `ok` flag.
   */
  datatype Credentials = Credentials(username: GoString, password: GoString)

  /** Scanning the row of `SELECT password FROM users WHERE name=$1`. */
  datatype PasswordRow = Found(hash: GoString) | NoRows | ScanError(text: string)

  /** The store as the handlers use it: each repository call and what it returns. */
  datatype Db = Db(
    passwordOf: GoString -> PasswordRow,
    getUser: User -> Result<User>,
    getOrder: (Order, GoString) -> Result<Order>,
    createOrder: Order -> Result<Order>,
    getOrders: (GoString, int, int) -> Result<seq<Order>>,
    updateOrder: Order -> Result<Order>,
    deleteOrder: Order -> Result<Order>)

  /** `bcrypt.CompareHashAndPassword(hash, password) == nil`. */
  type Hasher = (GoString, GoString) -> bool

  /** A call a handler makes on its way to the response. */
  datatype Call =
    | LookupPassword(name: GoString)
    | CompareHash(hash: GoString, password: GoString)
    | RunHandler
    | FetchUser(user: User)
    | FetchOrder(order: Order, userId: GoString)
    | StoreCreate(order: Order)
    | ListOrders(userId: GoString, count: int, start: int)
    | StoreUpdate(order: Order)
    | StoreDelete(order: Order)

  datatype Outcome = Outcome(response: Response<Payload>, calls: seq<Call>)

  /** An error response written before any call. */
  function Refuse(code: int, message: string): Outcome {
    Outcome(RespondWithError(code, message), [])
  }

  // ---------------------------------------------------------------------------
  // basicAuth
  // ---------------------------------------------------------------------------

  /** The credentials pass every check of the gate. */
  predicate Authenticates(cred: Credentials, db: Db, matches: Hasher) {
    Utils.UserValidations(cred.username, cred.password) &&
    db.passwordOf(cred.username).Found? &&
    matches(db.passwordOf(cred.username).hash, cred.password)
  }

  /**
   * `basicAuth(fn)` applied to a request: validate the username, look up its
   * stored hash, compare, then run the wrapped handler, whose outcome is `next`.
   */
  function BasicAuth(cred: Credentials, db: Db, matches: Hasher, next: Outcome): (r: Outcome)
    // an invalid username is refused without touching the store or bcrypt
    ensures !Utils.UserValidations(cred.username, cred.password) ==>
      r == Refuse(StatusBadRequest, "username/password is invalid.")
    // otherwise the stored hash is looked up first
    ensures Utils.UserValidations(cred.username, cred.password) ==>
      |r.calls| >= 1 && r.calls[0] == LookupPassword(cred.username)
    ensures Utils.UserValidations(cred.username, cred.password) && db.passwordOf(cred.username).NoRows? ==>
      r == Outcome(RespondWithError(StatusUnauthorized, "Unauthorized."), [LookupPassword(cred.username)])
    ensures Utils.UserValidations(cred.username, cred.password) && db.passwordOf(cred.username).ScanError? ==>
      r == Outcome(RespondWithError(StatusInternalServerError, "Internal server errror."), [LookupPassword(cred.username)])
    ensures Utils.UserValidations(cred.username, cred.password) && db.passwordOf(cred.username).Found? ==>
      var h := db.passwordOf(cred.username).hash;
      |r.calls| >= 2 && r.calls[..2] == [LookupPassword(cred.username), CompareHash(h, cred.password)]
    ensures (Utils.UserValidations(cred.username, cred.password) && db.passwordOf(cred.username).Found? &&
             !matches(db.passwordOf(cred.username).hash, cred.password)) ==>
      r.response == RespondWithError(StatusUnauthorized, "Unauthorized.") && |r.calls| == 2
    // the wrapped handler runs exactly when the credentials authenticate, and then it alone answers
    ensures RunHandler in r.calls <==> Authenticates(cred, db, matches)
    ensures Authenticates(cred, db, matches) ==>
      r.response == next.response &&
      r.calls == [LookupPassword(cred.username), CompareHash(db.passwordOf(cred.username).hash, cred.password), RunHandler]
                 + next.calls
    ensures !Authenticates(cred, db, matches) ==>
      r.response.status in {StatusBadRequest, StatusUnauthorized, StatusInternalServerError} &&
      IsErrorEnvelope(r.response)
  {
    if !Utils.UserValidations(cred.username, cred.password) then
      Refuse(StatusBadRequest, "username/password is invalid.")
    else
      var lookup := [LookupPassword(cred.username)];
      match db.passwordOf(cred.username)
      case NoRows =>
        Outcome(RespondWithError(StatusUnauthorized, "Unauthorized."), lookup)
      case ScanError(_) =>
        Outcome(RespondWithError(StatusInternalServerError, "Internal server errror."), lookup)
      case Found(hash) =>
        var compared := lookup + [CompareHash(hash, cred.password)];
        if !matches(hash, cred.password) then
          Outcome(RespondWithError(StatusUnauthorized, "Unauthorized."), compared)
        else
          Outcome(next.response, compared + [RunHandler] + next.calls)
  }

  /** A refusal's status tells which check of the gate failed. */
  lemma GateRefusalIdentifiesStage(cred: Credentials, db: Db, matches: Hasher, next: Outcome)
    requires !Authenticates(cred, db, matches)
    ensures var r := BasicAuth(cred, db, matches, next).response;
      (r.status == StatusBadRequest <==> !Utils.UserValidations(cred.username, cred.password)) &&
      (r.status == StatusInternalServerError <==>
         Utils.UserValidations(cred.username, cred.password) && db.passwordOf(cred.username).ScanError?) &&
      (r.status == StatusUnauthorized <==>
         Utils.UserValidations(cred.username, cred.password) && !db.passwordOf(cred.username).ScanError?)
  {
  }

  /** An unknown user and a wrong password get the same answer. */
  lemma UnknownUserLooksLikeWrongPassword(u: GoString, p: GoString, db1: Db, db2: Db, matches: Hasher, next: Outcome)
    requires Utils.UserValidations(u, p)
    requires db1.passwordOf(u).NoRows?
    requires db2.passwordOf(u).Found? && !matches(db2.passwordOf(u).hash, p)
    ensures BasicAuth(Credentials(u, p), db1, matches, next).response ==
            BasicAuth(Credentials(u, p), db2, matches, next).response
  {
  }

  /**
   * A request without an Authorization header is not refused by validation:
   * the empty name is looked up, and only the store's answer rejects it.
   */
  lemma MissingHeaderReachesLookup(db: Db, matches: Hasher, next: Outcome)
    ensures var r := BasicAuth(Credentials([], []), db, matches, next);
      r.response.status != StatusBadRequest || next.response.status == StatusBadRequest
    ensures BasicAuth(Credentials([], []), db, matches, next).calls[0] == LookupPassword([])
  {
  }

  /** A handler's outcome is well enveloped behind the gate if it was without it. */
  lemma BasicAuthKeepsEnvelopes(cred: Credentials, db: Db, matches: Hasher, next: Outcome)
    requires Enveloped(next.response)
    ensures Enveloped(BasicAuth(cred, db, matches, next).response)
  {
  }

  // ---------------------------------------------------------------------------
  // getUser, getOrder
  // ---------------------------------------------------------------------------

  /** `User{ID: id}`. */
  function UserWithId(id: int): User {
    User(id, [], [], 0)
  }

  /** `Order{ID: id}`. */
  function OrderWithId(id: int): Order {
    Order(id, [], 0, [])
  }

  /** `getUser`: a bad id is 400; any failure of the lookup, whatever its cause, is 404. */
  function GetUser(id: Atoi, db: Db): (r: Outcome)
    ensures id.Failed() ==> r == Refuse(StatusBadRequest, "User ID is invalid.")
    ensures id.Parsed? ==> r.calls == [FetchUser(UserWithId(id.n))]
    ensures id.Parsed? && db.getUser(UserWithId(id.n)).Failed? ==>
      r.response == RespondWithError(StatusNotFound, "User not found.")
    ensures r.response.status == StatusOK <==> id.Parsed? && db.getUser(UserWithId(id.n)).Ok?
    ensures r.response.status == StatusOK ==>
      r.response == RespondWithJson(StatusOK, UserValue(db.getUser(UserWithId(id.n)).value))
    ensures Enveloped(r.response)
  {
    if id.Failed() then
      Refuse(StatusBadRequest, "User ID is invalid.")
    else
      var u := UserWithId(id.n);
      match db.getUser(u)
      case Failed(_) => Outcome(RespondWithError(StatusNotFound, "User not found."), [FetchUser(u)])
      case Ok(found) => Outcome(RespondWithJson(StatusOK, UserValue(found)), [FetchUser(u)])
  }

  /**
   * `getOrder`: a bad id is 400; any failure of the lookup filtered by the
   * `user_id` query value is 404, so another user's order reads as absent.
   */
  function GetOrder(id: Atoi, userId: GoString, db: Db): (r: Outcome)
    ensures id.Failed() ==> r == Refuse(StatusBadRequest, "Order ID is invalid.")
    ensures id.Parsed? ==> r.calls == [FetchOrder(OrderWithId(id.n), userId)]
    ensures id.Parsed? && db.getOrder(OrderWithId(id.n), userId).Failed? ==>
      r.response == RespondWithError(StatusNotFound, "Order not found.")
    ensures r.response.status == StatusOK <==> id.Parsed? && db.getOrder(OrderWithId(id.n), userId).Ok?
    ensures r.response.status == StatusOK ==>
      r.response == RespondWithJson(StatusOK, OrderValue(db.getOrder(OrderWithId(id.n), userId).value))
    ensures Enveloped(r.response)
  {
    if id.Failed() then
      Refuse(StatusBadRequest, "Order ID is invalid.")
    else
      var o := OrderWithId(id.n);
      match db.getOrder(o, userId)
      case Failed(_) => Outcome(RespondWithError(StatusNotFound, "Order not found."), [FetchOrder(o, userId)])
      case Ok(found) => Outcome(RespondWithJson(StatusOK, OrderValue(found)), [FetchOrder(o, userId)])
  }

  /** `createOrder`: a body that does not decode is 400; a store failure is 500. */
  function CreateOrder(body: Decoded, db: Db): (r: Outcome)
    ensures body.Malformed? ==> r == Refuse(StatusBadRequest, "Order ID is invalid.")
    ensures body.Decoded? ==>
      var o := DecodeInto(Order(0, [], 0, []), body.json);
      r.calls == [StoreCreate(o)] &&
      r.response == match db.createOrder(o)
        case Ok(created) => RespondWithJson(StatusOK, OrderValue(created))
        case Failed(_) => RespondWithError(StatusInternalServerError, "order could not be created.")
    ensures Enveloped(r.response)
  {
    match body
    case Malformed => Refuse(StatusBadRequest, "Order ID is invalid.")
    case Decoded(json) =>
      var o := DecodeInto(Order(0, [], 0, []), json);
      match db.createOrder(o)
      case Failed(_) => Outcome(RespondWithError(StatusInternalServerError, "order could not be created."), [StoreCreate(o)])
      case Ok(created) => Outcome(RespondWithJson(StatusOK, OrderValue(created)), [StoreCreate(o)])
  }

  // ---------------------------------------------------------------------------
  // getOrders: pagination
  // ---------------------------------------------------------------------------

  const MaxPage := 10

  /** A page size outside [1, 10] is replaced by 10, not by the nearer bound. */
  function ClampCount(count: int): (c: int)
    ensures 1 <= c <= MaxPage
    ensures 1 <= count <= MaxPage ==> c == count
    ensures count < 1 || MaxPage < count ==> c == MaxPage
  {
    if count > MaxPage || count < 1 then MaxPage else count
  }

  /** A negative offset is replaced by 0. */
  function ClampStart(start: int): (s: int)
    ensures s >= 0
    ensures start >= 0 ==> s == start
    ensures start < 0 ==> s == 0
  {
    if start < 0 then 0 else start
  }

  /** Clamping twice is clamping once. */
  lemma ClampIdempotent(count: int, start: int)
    ensures ClampCount(ClampCount(count)) == ClampCount(count)
    ensures ClampStart(ClampStart(start)) == ClampStart(start)
  {
  }

  /**
   * `getOrders`: the parse errors of `count` and `start` are ignored, the two
   * values are clamped, and the page is always requested; a failure is 404.
   */
  function GetOrders(userId: GoString, count: Atoi, start: Atoi, db: Db): (r: Outcome)
    ensures |r.calls| == 1 && r.calls[0].ListOrders? && r.calls[0].userId == userId
    ensures 1 <= r.calls[0].count <= MaxPage && r.calls[0].start >= 0
    ensures r.calls[0].count == ClampCount(count.Value()) && r.calls[0].start == ClampStart(start.Value())
    ensures var c := r.calls[0];
      r.response == match db.getOrders(userId, c.count, c.start)
        case Ok(orders) => RespondWithJson(StatusOK, OrderList(orders))
        case Failed(_) => RespondWithError(StatusNotFound, "No orders found.")
    ensures Enveloped(r.response)
  {
    var c := ClampCount(count.Value());
    var s := ClampStart(start.Value());
    var call := [ListOrders(userId, c, s)];
    match db.getOrders(userId, c, s)
    case Failed(_) => Outcome(RespondWithError(StatusNotFound, "No orders found."), call)
    case Ok(orders) => Outcome(RespondWithJson(StatusOK, OrderList(orders)), call)
  }

  /**
   * Missing or unparsable `count` and `start` give the first page of ten;
   * `count=0` and `count=11` both give ten; an overflowing negative start is 0.
   */
  lemma PageDefaults(userId: GoString, db: Db)
    ensures GetOrders(userId, SyntaxError, SyntaxError, db).calls == [ListOrders(userId, 10, 0)]
    ensures GetOrders(userId, Parsed(0), Parsed(0), db).calls == [ListOrders(userId, 10, 0)]
    ensures GetOrders(userId, Parsed(11), Parsed(-5), db).calls == [ListOrders(userId, 10, 0)]
    ensures GetOrders(userId, RangeError(true), RangeError(false), db).calls == [ListOrders(userId, 10, 0)]
  {
  }

  // ---------------------------------------------------------------------------
  // updateOrder, deleteOrder: the ownership guard
  // ---------------------------------------------------------------------------

  /** `json.Decode` into an existing struct overwrites exactly the fields the body carries. */
  function DecodeInto(o: Order, j: OrderJson): Order {
    Order(
      if j.id.Some? then j.id.value else o.id,
      if j.user.Some? then j.user.value else o.user,
      if j.userId.Some? then j.userId.value else o.userId,
      if j.items.Some? then j.items.value else o.items)
  }

  /**
   * The order update and delete build: `Order{}` with the path id, then the
   * body decoded over it; None when either step fails.
   */
  function RequestOrder(id: Atoi, body: Decoded): Option<Order> {
    if id.Failed() || body.Malformed? then None else Some(DecodeInto(OrderWithId(id.n), body.json))
  }

  /** The id in the path is kept only when the body has none of its own. */
  lemma BodyIdOverridesPath(id: Atoi, j: OrderJson)
    requires id.Parsed?
    ensures RequestOrder(id, Decoded(j)).Some?
    ensures RequestOrder(id, Decoded(j)).value.id == if j.id.Some? then j.id.value else id.n
    ensures RequestOrder(id, Decoded(j)).value.user == if j.user.Some? then j.user.value else []
  {
  }

  /** The request names an order and the authenticated user is the owner that order claims. */
  predicate PassesGuard(id: Atoi, cred: Credentials, body: Decoded) {
    RequestOrder(id, body).Some? && RequestOrder(id, body).value.user == cred.username
  }

  /**
   * `updateOrder`: path id (400), body (400), ownership (403), then the
   * repository, whose error text "Order not found." alone maps to 404.
   */
  function UpdateOrder(id: Atoi, cred: Credentials, body: Decoded, db: Db): (r: Outcome)
    ensures id.Failed() ==> r == Refuse(StatusBadRequest, "User ID is invalid.")
    ensures id.Parsed? && body.Malformed? ==> r == Refuse(StatusBadRequest, "Order ID is invalid.")
    ensures RequestOrder(id, body).Some? && !PassesGuard(id, cred, body) ==> r == Refuse(StatusForbidden, "Forbidden.")
    // the repository is called once, and only for the owner
    ensures r.calls != [] <==> PassesGuard(id, cred, body)
    ensures PassesGuard(id, cred, body) ==>
      var o := RequestOrder(id, body).value;
      r.calls == [StoreUpdate(o)] &&
      r.response == match db.updateOrder(o)
        case Ok(updated) => RespondWithJson(StatusOK, OrderValue(updated))
        case Failed(reason) =>
          if reason == "Order not found." then RespondWithError(StatusNotFound, "Order could not be found.")
          else RespondWithError(StatusInternalServerError, "Order could not be updated.")
    ensures r.response.status in {StatusOK, StatusBadRequest, StatusForbidden, StatusNotFound, StatusInternalServerError}
    ensures Enveloped(r.response)
  {
    if id.Failed() then
      Refuse(StatusBadRequest, "User ID is invalid.")
    else if body.Malformed? then
      Refuse(StatusBadRequest, "Order ID is invalid.")
    else
      var o := DecodeInto(OrderWithId(id.n), body.json);
      if cred.username != o.user then
        Refuse(StatusForbidden, "Forbidden.")
      else
        match db.updateOrder(o)
        case Failed(reason) =>
          if reason == "Order not found." then
            Outcome(RespondWithError(StatusNotFound, "Order could not be found."), [StoreUpdate(o)])
          else
            Outcome(RespondWithError(StatusInternalServerError, "Order could not be updated."), [StoreUpdate(o)])
        case Ok(updated) =>
          Outcome(RespondWithJson(StatusOK, OrderValue(updated)), [StoreUpdate(o)])
  }

  /**
   * `deleteOrder`: the same checks in the same order; the repository's error
   * text "Order doesn't exist." alone maps to 404.
   */
  function DeleteOrder(id: Atoi, cred: Credentials, body: Decoded, db: Db): (r: Outcome)
    ensures id.Failed() ==> r == Refuse(StatusBadRequest, "User ID is invalid.")
    ensures id.Parsed? && body.Malformed? ==> r == Refuse(StatusBadRequest, "Order ID is invalid.")
    ensures RequestOrder(id, body).Some? && !PassesGuard(id, cred, body) ==> r == Refuse(StatusForbidden, "Forbidden.")
    ensures r.calls != [] <==> PassesGuard(id, cred, body)
    ensures PassesGuard(id, cred, body) ==>
      var o := RequestOrder(id, body).value;
      r.calls == [StoreDelete(o)] &&
      r.response == match db.deleteOrder(o)
        case Ok(deleted) => RespondWithJson(StatusOK, OrderValue(deleted))
        case Failed(reason) =>
          if reason == "Order doesn't exist." then RespondWithError(StatusNotFound, "Order doesn't exist.")
          else RespondWithError(StatusInternalServerError, "Order could not be deleted.")
    ensures r.response.status in {StatusOK, StatusBadRequest, StatusForbidden, StatusNotFound, StatusInternalServerError}
    ensures Enveloped(r.response)
  {
    if id.Failed() then
      Refuse(StatusBadRequest, "User ID is invalid.")
    else if body.Malformed? then
      Refuse(StatusBadRequest, "Order ID is invalid.")
    else
      var o := DecodeInto(OrderWithId(id.n), body.json);
      if cred.username != o.user then
        Refuse(StatusForbidden, "Forbidden.")
      else
        match db.deleteOrder(o)
        case Failed(reason) =>
          if reason == "Order doesn't exist." then
            Outcome(RespondWithError(StatusNotFound, "Order doesn't exist."), [StoreDelete(o)])
          else
            Outcome(RespondWithError(StatusInternalServerError, "Order could not be deleted."), [StoreDelete(o)])
        case Ok(deleted) =>
          Outcome(RespondWithJson(StatusOK, OrderValue(deleted)), [StoreDelete(o)])
  }

  /**
   * An earlier failing check masks every later one: once the path id fails,
   * nothing else matters; once the body fails, neither the user nor the store
   * matters; once the guard fails, the store does not matter.
   */
  lemma MutationChecksInOrder(id: Atoi, cred1: Credentials, cred2: Credentials,
                              body1: Decoded, body2: Decoded, db1: Db, db2: Db)
    ensures id.Failed() ==>
      UpdateOrder(id, cred1, body1, db1) == UpdateOrder(id, cred2, body2, db2) &&
      DeleteOrder(id, cred1, body1, db1) == DeleteOrder(id, cred2, body2, db2)
    ensures id.Parsed? && body1.Malformed? ==>
      UpdateOrder(id, cred1, body1, db1) == UpdateOrder(id, cred2, body1, db2) &&
      DeleteOrder(id, cred1, body1, db1) == DeleteOrder(id, cred2, body1, db2)
    ensures RequestOrder(id, body1).Some? && !PassesGuard(id, cred1, body1) ==>
      UpdateOrder(id, cred1, body1, db1) == UpdateOrder(id, cred1, body1, db2) &&
      DeleteOrder(id, cred1, body1, db1) == DeleteOrder(id, cred1, body1, db2)
  {
  }

  /**
   * The guard compares the caller with the owner the body claims, not with
   * the owner the store records: a body naming the caller as its user passes.
   */
  lemma GuardTrustsClaimedOwner(id: Atoi, cred: Credentials, db: Db, j: OrderJson)
    requires id.Parsed? && j.user == Some(cred.username)
    ensures UpdateOrder(id, cred, Decoded(j), db).calls == [StoreUpdate(DecodeInto(OrderWithId(id.n), j))]
    ensures DeleteOrder(id, cred, Decoded(j), db).calls == [StoreDelete(DecodeInto(OrderWithId(id.n), j))]
  {
  }

  // ---------------------------------------------------------------------------
  // The protected routes (InitRouter wires basicAuth around the handlers)
  // ---------------------------------------------------------------------------

  /** `signin`: reached only through the gate. */
  function Signin(): (r: Outcome)
    ensures r.calls == [] && r.response.status == StatusOK && !IsErrorEnvelope(r.response)
    ensures r.response.body == Fields(map["message" := "Sign-in successful."])
  {
    Outcome(Response(StatusOK, Fields(map["message" := "Sign-in successful."])), [])
  }

  /** PUT /orders/{id}: an order is updated only for an authenticated caller who is its claimed owner. */
  function ProtectedUpdateOrder(id: Atoi, cred: Credentials, body: Decoded, db: Db, matches: Hasher): (r: Outcome)
    ensures forall c :: c in r.calls && c.StoreUpdate? ==>
      Authenticates(cred, db, matches) && c.order.user == cred.username
    ensures r.response.status == StatusForbidden ==> Authenticates(cred, db, matches)
    ensures Enveloped(r.response)
  {
    BasicAuth(cred, db, matches, UpdateOrder(id, cred, body, db))
  }

  /** DELETE /orders/{id}: an order is deleted only for an authenticated caller who is its claimed owner. */
  function ProtectedDeleteOrder(id: Atoi, cred: Credentials, body: Decoded, db: Db, matches: Hasher): (r: Outcome)
    ensures forall c :: c in r.calls && c.StoreDelete? ==>
      Authenticates(cred, db, matches) && c.order.user == cred.username
    ensures r.response.status == StatusForbidden ==> Authenticates(cred, db, matches)
    ensures Enveloped(r.response)
  {
    BasicAuth(cred, db, matches, DeleteOrder(id, cred, body, db))
  }

  /** The answer the tests expect from the gate for sign-in: right password 200, wrong password 401. */
  lemma SigninScenarios(name: string, right: GoString, wrong: GoString, db: Db, matches: Hasher)
    requires |name| < 64
    requires db.passwordOf(Utf8(name)).Found?
    requires matches(db.passwordOf(Utf8(name)).hash, right)
    requires !matches(db.passwordOf(Utf8(name)).hash, wrong)
    ensures BasicAuth(Credentials(Utf8(name), right), db, matches, Signin()).response ==
      Response(StatusOK, Fields(map["message" := "Sign-in successful."]))
    ensures var r := BasicAuth(Credentials(Utf8(name), wrong), db, matches, Signin()).response;
      r.status == StatusUnauthorized && ErrorOf(r) == "Unauthorized."
  {
  }

  /** The answer the tests expect from the gate for a 256-letter random name: 400 before any lookup. */
  lemma LongAsciiNameRefused(name: string, password: GoString, db: Db, matches: Hasher, next: Outcome)
    requires |name| == 256 && IsAscii(name)
    ensures var r := BasicAuth(Credentials(Utf8(name), password), db, matches, next);
      r.calls == [] && r.response.status == StatusBadRequest &&
      ErrorOf(r.response) == "username/password is invalid."
  {
  }
}

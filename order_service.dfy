/** order-service: the `orders` table and `orderHandler`, the step machine
    validate → user lookup → insert a pending row → charge → record the payment
    status → launch a notification → reply, together with the client-side result
    mappings `getUser`, `processPayment` and `sendNotification`. The outcome of
    each outbound call is an input; the handler returns the trace of effects it
    performed, in order. */
module OrderService {
  import opened Common
  import opened Decimal
  import opened Http
  import opened Messages
  import opened Sqlite

  /** The request/response record; `paymentStatus` is only ever echoed. */
  datatype Order = Order(id: int, userId: int, amount: int, description: string, paymentStatus: string)

  /** A stored row; its key is the order id. */
  datatype OrderRow = OrderRow(userId: int, amount: int, description: string, paymentStatus: string)

  /** The column default that every inserted row starts with. */
  const StatusPending := "pending"
  const StatusFailed := "failed"

  /** `getUser` requests `http://user-service:3001/api/users/<id>`. */
  const UserServiceBase := "http://user-service:3001"
  const UsersPath := "/api/users/"

  const ErrInvalidInput := "{\"error\": \"Invalid user_id or amount\"}"
  const ErrDatabase := "{\"error\": \"Database error\"}"
  const ErrNoOrderId := "{\"error\": \"Failed to get order ID\"}"

  function UserValidationError(err: string): string {
    "{\"error\": \"User validation failed: " + err + "\"}"
  }

  /** The two shapes of a 200 answer. */
  datatype OrderReply =
    | OrderWithPayment(order: Order, payment: PaymentResponse)
    | OrderWithPaymentError(order: Order, paymentError: string)

  /** The handler's effects on the outside world and on its table, in the order performed. */
  datatype Effect =
    | LookupUser(url: string)
    | InsertOrder(row: OrderRow)
    | Charge(payment: PaymentRequest)
    | UpdateStatus(id: int, status: string)
    | LaunchNotification(notification: NotificationRequest)

  function UserUrl(userId: int): string {
    UserServiceBase + UsersPath + FormatInt(userId)
  }

  /** `getUser`: the user, or the error the handler reports. The status is tested
      before the body is decoded. */
  function GetUser(ex: Exchange<User>): (r: Result<User, string>)
    ensures r.Success? <==> ex.Response? && ex.statusCode == StatusOK && ex.body.Decoded?
    ensures r.Success? ==> r.value == ex.body.value
    ensures ex.TransportError? ==> r == Failure(ex.err)
    ensures ex.Response? && ex.statusCode != StatusOK ==>
      r == Failure("user not found or error: " + FormatInt(ex.statusCode))
    ensures ex.Response? && ex.statusCode == StatusOK && ex.body.Undecodable? ==> r == Failure(ex.body.err)
  {
    match ex
    case TransportError(err) => Failure(err)
    case Response(code, body) =>
      if code != StatusOK then Failure("user not found or error: " + FormatInt(code))
      else
        match body
        case Undecodable(err) => Failure(err)
        case Decoded(user) => Success(user)
  }

  /** The body `processPayment` posts for an order. */
  function PaymentRequestFor(order: Order): (req: PaymentRequest)
    ensures req.orderId == order.id && req.amount == order.amount && req.description == order.description
  {
    PaymentRequest(order.id, order.amount, order.description)
  }

  /** `processPayment`: an error exactly on a transport error, an undecodable body
      or a status other than 200, decoding coming first; a 200 answer is the
      gateway's record whatever its `status` says, "failed" included. */
  function ProcessPayment(ex: Exchange<PaymentResponse>): (r: Result<PaymentResponse, string>)
    ensures r.Failure? <==> ex.TransportError? || ex.body.Undecodable? || ex.statusCode != StatusOK
    ensures r.Success? ==> r.value == ex.body.value
    ensures ex.TransportError? ==> r == Failure(ex.err)
    ensures ex.Response? && ex.body.Undecodable? ==> r == Failure(ex.body.err)
    ensures ex.Response? && ex.body.Decoded? && ex.statusCode != StatusOK ==>
      r == Failure("payment failed: " + ex.body.value.errorMessage)
  {
    match ex
    case TransportError(err) => Failure(err)
    case Response(code, body) =>
      match body
      case Undecodable(err) => Failure(err)
      case Decoded(resp) =>
        if code != StatusOK then Failure("payment failed: " + resp.errorMessage) else Success(resp)
  }

  /** `sendNotification`: the error the background task logs, if any; the answer's
      body is not read. */
  function SendNotification(ex: Exchange<NotificationResponse>): (r: Option<string>)
    ensures r.None? <==> ex.Response? && ex.statusCode == StatusOK
    ensures ex.TransportError? ==> r == Some(ex.err)
    ensures ex.Response? && ex.statusCode != StatusOK ==>
      r == Some("notification failed with status: " + FormatInt(ex.statusCode))
  {
    match ex
    case TransportError(err) => Some(err)
    case Response(code, _) =>
      if code != StatusOK then Some("notification failed with status: " + FormatInt(code)) else None
  }

  /** The row an accepted request inserts: the column default for the status. */
  function PendingRow(order: Order): (row: OrderRow)
    ensures row.paymentStatus == StatusPending
    ensures row.userId == order.userId && row.amount == order.amount && row.description == order.description
  {
    OrderRow(order.userId, order.amount, order.description, StatusPending)
  }

  function WithStatus(status: string): OrderRow -> OrderRow {
    (row: OrderRow) => row.(paymentStatus := status)
  }

  /** Whether the handler gets past method, decoding and input validation. */
  predicate Accepted(httpMethod: string, body: Decoded<Order>) {
    httpMethod == MethodPost && body.Decoded? && body.value.userId > 0 && body.value.amount > 0
  }

  /** `updatePaymentStatus`: sets one row's status; a failure is only logged. */
  method UpdatePaymentStatus(db: Table<OrderRow>, orderId: int, status: string, fails: bool)
    requires db.Valid()
    modifies db
    ensures db.Valid()
    ensures db.lastId == old(db.lastId)
    ensures db.rows == if fails || orderId !in old(db.rows) then old(db.rows)
                       else old(db.rows)[orderId := old(db.rows)[orderId].(paymentStatus := status)]
  {
    db.Update(orderId, WithStatus(status), fails);
  }

  /** `orderHandler`. `users`, `payments`: the outcomes of the user lookup and the
      payment call; `insertFault`, `updateFails`: the storage faults. */
  method OrderHandler(db: Table<OrderRow>, httpMethod: string, body: Decoded<Order>,
                      users: Exchange<User>, payments: Exchange<PaymentResponse>,
                      insertFault: Fault, updateFails: bool)
    returns (reply: Reply<OrderReply>, effects: seq<Effect>)
    requires db.Valid()
    modifies db
    ensures db.Valid()
    // Rejected requests: no call, no write.
    ensures httpMethod != MethodPost ==>
      reply == Error(StatusMethodNotAllowed, ErrMethodNotAllowed) && effects == []
    ensures httpMethod == MethodPost && body.Undecodable? ==>
      reply == Error(StatusBadRequest, ErrInvalidRequest) && effects == []
    ensures httpMethod == MethodPost && body.Decoded? && !Accepted(httpMethod, body) ==>
      reply == Error(StatusBadRequest, ErrInvalidInput) && effects == []
    ensures !Accepted(httpMethod, body) ==> db.rows == old(db.rows) && db.lastId == old(db.lastId)
    // Unresolved user: one lookup, no write.
    ensures Accepted(httpMethod, body) && GetUser(users).Failure? ==>
      && reply == Error(StatusBadRequest, UserValidationError(GetUser(users).error))
      && effects == [LookupUser(UserUrl(body.value.userId))]
      && db.rows == old(db.rows) && db.lastId == old(db.lastId)
    // The insert does not run: 500, no payment, no update.
    ensures Accepted(httpMethod, body) && GetUser(users).Success? && !old(db.Stores(insertFault)) ==>
      && reply == Error(StatusInternalServerError, ErrDatabase)
      && effects == [LookupUser(UserUrl(body.value.userId)), InsertOrder(PendingRow(body.value))]
      && db.rows == old(db.rows) && db.lastId == old(db.lastId)
    // The insert runs: one fresh pending row, above every earlier id.
    ensures Accepted(httpMethod, body) && GetUser(users).Success? && old(db.Stores(insertFault)) ==>
      && db.lastId == old(db.lastId) + 1
      && db.lastId !in old(db.rows)
      && (forall id :: id in old(db.rows) ==> id < db.lastId)
    // The new id is not known: 500, the pending row stays, no payment.
    ensures Accepted(httpMethod, body) && GetUser(users).Success? && old(db.Stores(insertFault)) &&
            insertFault.LastInsertIdFails? ==>
      && reply == Error(StatusInternalServerError, ErrNoOrderId)
      && effects == [LookupUser(UserUrl(body.value.userId)), InsertOrder(PendingRow(body.value))]
      && db.rows == old(db.rows)[db.lastId := PendingRow(body.value)]
    // Charged: the order carries the new id; the row's final status is "failed" on a
    // payment error and the gateway's status otherwise, unless the update fails.
    ensures Accepted(httpMethod, body) && GetUser(users).Success? && old(db.Stores(insertFault)) &&
            insertFault.NoFault? ==>
      var order := body.value.(id := db.lastId);
      var pay := ProcessPayment(payments);
      var status := if pay.Failure? then StatusFailed else pay.value.status;
      && db.rows == old(db.rows)[order.id := PendingRow(body.value).(paymentStatus :=
                                               if updateFails then StatusPending else status)]
      && reply == Json(if pay.Failure? then OrderWithPaymentError(order, pay.error)
                       else OrderWithPayment(order, pay.value))
      && effects == [LookupUser(UserUrl(order.userId)), InsertOrder(PendingRow(body.value)),
                     Charge(PaymentRequestFor(order)), UpdateStatus(order.id, status)]
                    + (if pay.Failure? then [] else
                         [LaunchNotification(NotificationRequest(order.id, status, order.amount,
                                                                 GetUser(users).value.email))])
  {
    if httpMethod != MethodPost {
      return Error(StatusMethodNotAllowed, ErrMethodNotAllowed), [];
    }
    if body.Undecodable? {
      return Error(StatusBadRequest, ErrInvalidRequest), [];
    }
    var order := body.value;
    if order.userId <= 0 || order.amount <= 0 {
      return Error(StatusBadRequest, ErrInvalidInput), [];
    }

    effects := [LookupUser(UserUrl(order.userId))];
    var user := GetUser(users);
    if user.Failure? {
      return Error(StatusBadRequest, UserValidationError(user.error)), effects;
    }

    var row := PendingRow(order);
    effects := effects + [InsertOrder(row)];
    var inserted := db.Insert(row, insertFault);
    match inserted {
      case ExecError(_) =>
        return Error(StatusInternalServerError, ErrDatabase), effects;
      case LastInsertIdError(_) =>
        return Error(StatusInternalServerError, ErrNoOrderId), effects;
      case Inserted(id) =>
        order := order.(id := id);
    }

    var request := PaymentRequestFor(order);
    effects := effects + [Charge(request)];
    var payment := ProcessPayment(payments);
    if payment.Failure? {
      effects := effects + [UpdateStatus(order.id, StatusFailed)];
      UpdatePaymentStatus(db, order.id, StatusFailed, updateFails);
      return Json(OrderWithPaymentError(order, payment.error)), effects;
    }

    var resp := payment.value;
    effects := effects + [UpdateStatus(order.id, resp.status)];
    UpdatePaymentStatus(db, order.id, resp.status, updateFails);
    effects := effects + [LaunchNotification(NotificationRequest(order.id, resp.status, order.amount, user.value.email))];
    reply := Json(OrderWithPayment(order, resp));
  }
}

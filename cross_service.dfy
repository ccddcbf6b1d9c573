/** How the services' decisions compose when one service's reply is what another
    service's client receives, and the end-to-end behaviour of order creation on
    concrete requests. */
module CrossService {
  import opened Common
  import opened Decimal
  import opened Http
  import opened Messages
  import opened Sqlite
  import UserService
  import PaymentService
  import NotificationService
  import OrderService

  /** What a client receives when a handler answers: the status code, and the body
      decoded into the client's record. An encoded record decodes to itself; how an
      `http.Error` text decodes is given by `errorBody`. */
  function Deliver<T>(reply: Reply<T>, errorBody: Decoded<T>): (ex: Exchange<T>)
    ensures ex.Response? && ex.statusCode == reply.StatusCode()
    ensures reply.Json? ==> ex.body == Decoded(reply.value)
  {
    Response(reply.StatusCode(), if reply.Json? then Decoded(reply.value) else errorBody)
  }

  /** A declined charge is not a payment error for the orchestrator: the gateway
      answers 200 with a "failed" record, `processPayment` passes it on, and the
      notifier sends no email for that status. */
  lemma DeclinedChargeIsNotAPaymentError(req: PaymentRequest, msg: string, errorBody: Decoded<PaymentResponse>,
                                         email: string, smtp: NotificationService.SendOutcome)
    requires req.amount > 0
    ensures
      var reply := PaymentService.PaymentHandler(MethodPost, Decoded(req), PaymentService.StripeError(msg));
      && reply.StatusCode() == StatusOK
      && OrderService.ProcessPayment(Deliver(reply, errorBody))
         == Success(PaymentResponse(req.orderId, req.amount, PaymentService.StatusFailed, "", msg))
    ensures
      var note := NotificationRequest(req.orderId, PaymentService.StatusFailed, req.amount, email);
      NotificationService.NotificationHandler(MethodPost, Decoded(note), smtp)
      == (Json(NotificationResponse(req.orderId, NotificationService.StatusSent)), None)
  {
    var (resp, err) := PaymentService.ProcessPayment(req, PaymentService.StripeError(msg));
    assert resp == PaymentResponse(req.orderId, req.amount, PaymentService.StatusFailed, "", msg);
  }

  /** Against the real gateway, `processPayment` reports an error exactly when the
      gateway rejected the request (405 or 400) or the transport failed; every 200
      answer carries "success" or "failed". */
  lemma PaymentErrorOnlyOnRejection(httpMethod: string, body: Decoded<PaymentRequest>,
                                    stripe: PaymentService.StripeOutcome, errorBody: Decoded<PaymentResponse>)
    ensures
      var reply := PaymentService.PaymentHandler(httpMethod, body, stripe);
      var r := OrderService.ProcessPayment(Deliver(reply, errorBody));
      && (r.Failure? <==> reply.Error?)
      && (reply.Error? ==> reply.code == StatusBadRequest || reply.code == StatusMethodNotAllowed)
      && (r.Success? ==> r.value.status == PaymentService.StatusSuccess || r.value.status == PaymentService.StatusFailed)
      && (r.Success? ==> (r.value.status == PaymentService.StatusFailed <==> stripe.StripeError?))
  {
    var reply := PaymentService.PaymentHandler(httpMethod, body, stripe);
    if reply.Json? {
      var (resp, _) := PaymentService.ProcessPayment(body.value, stripe);
      assert reply.value == resp;
    }
  }

  /** The URL `getUser` requests names the user-service lookup path of the id. */
  lemma UserUrlNamesLookupPath(userId: int)
    ensures OrderService.UserUrl(userId) == OrderService.UserServiceBase + UserService.UserPath(userId)
  {
    assert OrderService.UsersPath == UserService.UserPathPrefix;
  }

  lemma NotFoundCodeText()
    ensures FormatInt(StatusNotFound) == "404"
  {
    assert DigitChar(4) == '4' && DigitChar(0) == '0';
    assert NatDigits(40) == NatDigits(4) + [DigitChar(0)];
    assert NatDigits(404) == NatDigits(40) + [DigitChar(4)];
  }

  lemma NotFoundReachesGetUser(text: string, errorBody: Decoded<User>)
    ensures OrderService.GetUser(Deliver(Error(StatusNotFound, text), errorBody)) == Failure("user not found or error: 404")
  {
    NotFoundCodeText();
    assert "user not found or error: " + "404" == "user not found or error: 404";
  }

  /** Looking a user up in the directory gives `getUser` the stored user, or the
      404 error when there is none. */
  lemma UserLookupAgainstDirectory(users: Table<UserService.UserRow>, userId: int, errorBody: Decoded<User>)
    requires users.Valid() && IsInt64(userId)
    ensures
      var r := OrderService.GetUser(Deliver(UserService.GetUserHandler(users, MethodGet, UserService.UserPath(userId), None), errorBody));
      && (userId in users.rows ==> r == Success(User(userId, users.rows[userId].name, users.rows[userId].email)))
      && (userId !in users.rows ==> r == Failure("user not found or error: 404"))
  {
    var path := UserService.UserPath(userId);
    var reply := UserService.GetUserHandler(users, MethodGet, path, None);
    AtoiFormatInt(userId);
    assert path[|UserService.UserPathPrefix|..] == FormatInt(userId);
    if userId in users.rows {
      assert reply == Json(User(userId, users.rows[userId].name, users.rows[userId].email));
    } else {
      assert reply == Error(StatusNotFound, UserService.ErrUserNotFound);
      NotFoundReachesGetUser(UserService.ErrUserNotFound, errorBody);
    }
  }

  /** The notifier answers 200 to every decodable POST, so `sendNotification` never
      reports an error for a delivered request, even when the email failed. */
  lemma NotifierHidesEmailFailure(req: NotificationRequest, smtp: NotificationService.SendOutcome,
                                  errorBody: Decoded<NotificationResponse>)
    ensures
      var (reply, _) := NotificationService.NotificationHandler(MethodPost, Decoded(req), smtp);
      OrderService.SendNotification(Deliver(reply, errorBody)) == None
  {
    var (reply, _) := NotificationService.NotificationHandler(MethodPost, Decoded(req), smtp);
    assert reply.Json?;
  }

  /** Order creation whose charge the gateway declines: the order is stored as
      "failed", the caller gets the gateway's record rather than a payment error,
      a notification with status "failed" is launched, and the notifier sends no
      email for it. */
  method DeclinedChargeFlow(db: Table<OrderService.OrderRow>, order: OrderService.Order, user: User,
                            decline: string, errorBody: Decoded<PaymentResponse>,
                            smtp: NotificationService.SendOutcome)
    returns (reply: Reply<OrderService.OrderReply>, effects: seq<OrderService.Effect>)
    requires db.Valid() && db.lastId < MaxRowId
    requires order.userId > 0 && order.amount > 0
    modifies db
    ensures db.Valid() && db.lastId == old(db.lastId) + 1
    ensures db.rows == old(db.rows)[db.lastId := OrderService.OrderRow(order.userId, order.amount, order.description, PaymentService.StatusFailed)]
    ensures reply == Json(OrderService.OrderWithPayment(order.(id := db.lastId),
               PaymentResponse(db.lastId, order.amount, PaymentService.StatusFailed, "", decline)))
    ensures |effects| == 5
    ensures effects[4] == OrderService.LaunchNotification(
              NotificationRequest(db.lastId, PaymentService.StatusFailed, order.amount, user.email))
    ensures NotificationService.NotificationHandler(MethodPost, Decoded(effects[4].notification), smtp).1 == None
  {
    var id := db.lastId + 1;
    var charge := OrderService.PaymentRequestFor(order.(id := id));
    var gateway := PaymentService.PaymentHandler(MethodPost, Decoded(charge), PaymentService.StripeError(decline));
    DeclinedChargeIsNotAPaymentError(charge, decline, errorBody, user.email, smtp);
    reply, effects := OrderService.OrderHandler(db, MethodPost, Decoded(order), Response(StatusOK, Decoded(user)),
                                                Deliver(gateway, errorBody), NoFault, false);
  }

  /** A first order of 5000 for "book" by the directory's first user, charged as
      intent "tx_1": order 1, stored as "success", answered with the order (its
      `paymentStatus` as the request gave it) and the gateway's record, and one
      confirmation email for order 1. */
  method BookOrderScenario() returns (reply: Reply<OrderService.OrderReply>, row: OrderService.OrderRow,
                                      email: Option<NotificationService.Email>)
    ensures reply == Json(OrderService.OrderWithPayment(OrderService.Order(1, 1, 5000, "book", ""),
                                                        PaymentResponse(1, 5000, "success", "tx_1", "")))
    ensures row == OrderService.OrderRow(1, 5000, "book", "success")
    ensures email.Some? && email.value.recipients == ["ann@example.com"]
  {
    var directory := new Table<UserService.UserRow>();
    var created := UserService.UserHandler(directory, MethodPost, Decoded(User(0, "Ann", "ann@example.com")), NoFault);
    var lookup := UserService.GetUserHandler(directory, MethodGet, UserService.UserPath(1), None);
    var gateway := PaymentService.PaymentHandler(MethodPost, Decoded(PaymentRequest(1, 5000, "book")),
                                                 PaymentService.IntentCreated("tx_1"));
    var orders := new Table<OrderService.OrderRow>();
    var effects;
    reply, effects := OrderService.OrderHandler(orders, MethodPost, Decoded(OrderService.Order(0, 1, 5000, "book", "")),
                                                Deliver(lookup, Undecodable("")), Deliver(gateway, Undecodable("")),
                                                NoFault, false);
    row := orders.rows[1];
    var (_, sent) := NotificationService.NotificationHandler(MethodPost, Decoded(effects[4].notification),
                                                             NotificationService.Delivered);
    email := sent;
  }

  /** The same order when the card is declined: still a 200 answer carrying the
      gateway's "failed" record, not a payment error; the row says "failed" and no
      email is sent. */
  method DeclinedBookOrderScenario() returns (reply: Reply<OrderService.OrderReply>, row: OrderService.OrderRow,
                                              email: Option<NotificationService.Email>)
    ensures reply == Json(OrderService.OrderWithPayment(OrderService.Order(1, 1, 5000, "book", ""),
                                                        PaymentResponse(1, 5000, "failed", "", "card_declined")))
    ensures row == OrderService.OrderRow(1, 5000, "book", "failed")
    ensures email == None
  {
    var directory := new Table<UserService.UserRow>();
    var created := UserService.UserHandler(directory, MethodPost, Decoded(User(0, "Ann", "ann@example.com")), NoFault);
    var lookup := UserService.GetUserHandler(directory, MethodGet, UserService.UserPath(1), None);
    var gateway := PaymentService.PaymentHandler(MethodPost, Decoded(PaymentRequest(1, 5000, "book")),
                                                 PaymentService.StripeError("card_declined"));
    var orders := new Table<OrderService.OrderRow>();
    var effects;
    reply, effects := OrderService.OrderHandler(orders, MethodPost, Decoded(OrderService.Order(0, 1, 5000, "book", "")),
                                                Deliver(lookup, Undecodable("")), Deliver(gateway, Undecodable("")),
                                                NoFault, false);
    row := orders.rows[1];
    var (_, sent) := NotificationService.NotificationHandler(MethodPost, Decoded(effects[4].notification),
                                                             NotificationService.Delivered);
    email := sent;
  }

  /** An order for a user the directory does not hold: 400, and no order row. */
  method UnknownUserScenario() returns (reply: Reply<OrderService.OrderReply>, rows: map<int, OrderService.OrderRow>)
    ensures reply == Error(StatusBadRequest, OrderService.UserValidationError("user not found or error: 404"))
    ensures rows == map[]
  {
    var directory := new Table<UserService.UserRow>();
    var lookup := UserService.GetUserHandler(directory, MethodGet, UserService.UserPath(999), None);
    UserLookupAgainstDirectory(directory, 999, Undecodable(""));
    var orders := new Table<OrderService.OrderRow>();
    var effects;
    reply, effects := OrderService.OrderHandler(orders, MethodPost, Decoded(OrderService.Order(0, 999, 5000, "book", "")),
                                                Deliver(lookup, Undecodable("")), TransportError(""),
                                                NoFault, false);
    rows := orders.rows;
  }
}

/** The JSON records the services exchange. Each service declares its own Go
    struct for them with the same fields and JSON names, so one datatype serves
    both ends of each call. */
module Messages {

  /** `GET /api/users/{id}` answer (user-service and order-service `User`). */
  datatype User = User(id: int, name: string, email: string)

  /** `POST /api/payments` body. */
  datatype PaymentRequest = PaymentRequest(orderId: int, amount: int, description: string)

  /** `POST /api/payments` answer; an empty string stands for an omitted optional field. */
  datatype PaymentResponse = PaymentResponse(
    orderId: int, amount: int, status: string, transactionId: string, errorMessage: string)

  /** `POST /api/notifications` body. */
  datatype NotificationRequest = NotificationRequest(
    orderId: int, paymentStatus: string, amount: int, userEmail: string)

  /** `POST /api/notifications` answer. */
  datatype NotificationResponse = NotificationResponse(orderId: int, status: string)
}

/** payment-service: `paymentHandler` and `StripeProcessor.ProcessPayment`, with
    the Stripe call (`paymentintent.New`) replaced by its outcome. */
module PaymentService {
  import opened Common
  import opened Http
  import opened Messages

  /** What `paymentintent.New` gives back: a created intent, or an error. */
  datatype StripeOutcome = IntentCreated(intentId: string) | StripeError(message: string)

  const StatusSuccess := "success"
  const StatusFailed := "failed"

  const ErrInvalidFormat := "{\"error\": \"Invalid request format\"}"
  const ErrAmount := "{\"error\": \"Amount must be greater than 0\"}"

  /** `StripeProcessor.ProcessPayment`: the response record and the error the
      processor returns beside it. */
  function ProcessPayment(req: PaymentRequest, stripe: StripeOutcome): (r: (PaymentResponse, Option<string>))
    ensures r.0.orderId == req.orderId && r.0.amount == req.amount
    ensures r.0.status == StatusSuccess || r.0.status == StatusFailed
    ensures r.0.status == StatusFailed <==> r.1.Some?
    ensures r.1.Some? <==> stripe.StripeError?
    ensures stripe.StripeError? ==>
      r.1 == Some(stripe.message) && r.0.errorMessage == stripe.message && r.0.transactionId == ""
    ensures stripe.IntentCreated? ==>
      r.0.transactionId == stripe.intentId && r.0.errorMessage == ""
  {
    match stripe
    case StripeError(msg) =>
      (PaymentResponse(req.orderId, req.amount, StatusFailed, "", msg), Some(msg))
    case IntentCreated(id) =>
      (PaymentResponse(req.orderId, req.amount, StatusSuccess, id, ""), None)
  }

  /** `paymentHandler` over the Stripe processor. The processor's error is only
      logged: its response record is encoded either way, so with the default status. */
  function PaymentHandler(httpMethod: string, body: Decoded<PaymentRequest>, stripe: StripeOutcome)
    : (reply: Reply<PaymentResponse>)
    ensures httpMethod != MethodPost ==> reply == Error(StatusMethodNotAllowed, ErrMethodNotAllowed)
    ensures httpMethod == MethodPost && body.Undecodable? ==> reply == Error(StatusBadRequest, ErrInvalidFormat)
    ensures httpMethod == MethodPost && body.Decoded? && body.value.amount <= 0 ==>
      reply == Error(StatusBadRequest, ErrAmount)
    ensures reply.Json? <==> httpMethod == MethodPost && body.Decoded? && body.value.amount > 0
    ensures reply.Json? ==> reply.value == ProcessPayment(body.value, stripe).0 && reply.StatusCode() == StatusOK
  {
    if httpMethod != MethodPost then Error(StatusMethodNotAllowed, ErrMethodNotAllowed)
    else if body.Undecodable? then Error(StatusBadRequest, ErrInvalidFormat)
    else if body.value.amount <= 0 then Error(StatusBadRequest, ErrAmount)
    else
      var (resp, _) := ProcessPayment(body.value, stripe);
      Json(resp)
  }

  /** A request the handler rejects never reaches the processor: the reply is the
      same whatever the processor would have done. */
  lemma RejectionIgnoresProcessor(httpMethod: string, body: Decoded<PaymentRequest>, s1: StripeOutcome, s2: StripeOutcome)
    requires !(httpMethod == MethodPost && body.Decoded? && body.value.amount > 0)
    ensures PaymentHandler(httpMethod, body, s1) == PaymentHandler(httpMethod, body, s2)
    ensures PaymentHandler(httpMethod, body, s1).StatusCode() != StatusOK
  {
  }
}

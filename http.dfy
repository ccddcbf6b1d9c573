/** The parts of HTTP the handlers observe, with I/O and JSON coding abstracted:
    a request body either decodes into the expected record or it does not, a
    handler either encodes a JSON value (status 200, since no handler calls
    WriteHeader before encoding) or answers through `http.Error`, and an outbound
    client call either fails in transport or yields a status code and a body. */
module Http {

  const MethodGet := "GET"
  const MethodPost := "POST"

  const StatusOK := 200
  const StatusBadRequest := 400
  const StatusNotFound := 404
  const StatusMethodNotAllowed := 405
  const StatusInternalServerError := 500

  const ErrMethodNotAllowed := "{\"error\": \"Method not allowed\"}"
  const ErrInvalidRequest := "{\"error\": \"Invalid request\"}"

  /** The outcome of `json.NewDecoder(body).Decode(&v)`. */
  datatype Decoded<T> = Decoded(value: T) | Undecodable(err: string)

  /** What a handler writes: a JSON-encoded value, or an `http.Error` text with its code. */
  datatype Reply<T> = Json(value: T) | Error(code: int, text: string)
  {
    /** The status line the client sees: encoding a value without an explicit
        WriteHeader sends 200. */
    function StatusCode(): (c: int)
      ensures Json? ==> c == StatusOK
      ensures Error? ==> c == code
    {
      if Json? then StatusOK else code
    }
  }

  /** The outcome of an outbound `http.Client` call, a timeout being one transport error. */
  datatype Exchange<T> = TransportError(err: string) | Response(statusCode: int, body: Decoded<T>)
}

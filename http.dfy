/**
 * The HTTP responses the handlers write: a status code and a JSON body.
 *
 * `respondWithJSON` marshals a payload; `respondWithError` marshals the
 * one-entry map {"error": message}. Headers and the marshalling to bytes are
 * not part of this model.
 */
module Http {

  // the net/http status codes the handlers use
  const StatusOK := 200
  const StatusBadRequest := 400
  const StatusUnauthorized := 401
  const StatusForbidden := 403
  const StatusNotFound := 404
  const StatusInternalServerError := 500
  const StatusNotImplemented := 501

  /** A JSON body: a string-to-string object, or one of the service's values. */
  datatype Body<+P> = Fields(fields: map<string, string>) | Value(payload: P)

  datatype Response<+P> = Response(status: int, body: Body<P>)

  /** `respondWithJSON(w, code, payload)` for a payload of the service's own types. */
  function RespondWithJson<P>(code: int, payload: P): (r: Response<P>)
    ensures r.status == code && r.body.Value? && r.body.payload == payload
    ensures !IsErrorEnvelope(r) && ErrorOf(r) == ""
  {
    Response(code, Value(payload))
  }

  /** `respondWithError(w, code, message)`: the body holds exactly one key, "error". */
  function RespondWithError<P>(code: int, message: string): (r: Response<P>)
    ensures r.status == code
    ensures IsErrorEnvelope(r) && ErrorOf(r) == message
  {
    Response(code, Fields(map["error" := message]))
  }

  /** Successful responses carry a value; every other response is an error envelope. */
  predicate Enveloped<P>(r: Response<P>) {
    r.status == StatusOK <==> !IsErrorEnvelope(r)
  }

  /** An object body whose only key is "error". */
  predicate IsErrorEnvelope<P>(r: Response<P>) {
    r.body.Fields? && r.body.fields.Keys == {"error"}
  }

  /**
   * What a client reads as `m["error"]` after unmarshalling the body into a
   * `map[string]string`: the entry, or "" when there is none.
   */
  function ErrorOf<P>(r: Response<P>): string {
    if r.body.Fields? && "error" in r.body.fields then r.body.fields["error"] else ""
  }
}

/**
 * The answer to a PATCH of the pod: either the HTTP status the API server
 * returned, or a failure before any status was received (the client could
 * not be built, a service-account file could not be read, the request
 * could not be sent).
 */
module Api {
  datatype Response = TransportError | Status(code: int)

  const StatusOK: int := 200
  const StatusUnauthorized: int := 401
  const StatusConflict: int := 409
}

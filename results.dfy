/**
  Outcomes of the route handlers. Each HTTP failure response of the handlers
  becomes one `Error` value; a success response carries the document or the
  list the handler sends back.
 */
module Results {

  datatype Option<+T> = None | Some(value: T)

  /** The failure responses of the property routes. */
  datatype Error =
    | Unauthenticated   // 401 from the token middleware: no or invalid `token` cookie
    | NotFound          // 404: property or rent request id does not resolve
    | Forbidden         // 403: authenticated, but not the owner / requester
    | InvalidInput      // 400 "Invalid days"
    | NotPending        // 400 "Only pending requests can be cancelled"
    | SaveRejected      // 500: the document fails schema validation on save

  datatype Result<+T> = Ok(value: T) | Err(error: Error)
}

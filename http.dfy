/** What a route handler sends back. */
module Http {
  import opened Common

  /** `res.status(status).json({message, ...})`: the status code, the
      message (empty where the handler sends none) and the payload a
      successful handler attaches. */
  datatype Reply<T> = Reply(status: nat, message: string, body: Option<T>)

  /** An error reply carries no payload. */
  function Error<T>(status: nat, message: string): Reply<T> {
    Reply(status, message, None)
  }

  /** The effect of a reply on the client's `token` cookie. */
  datatype CookieOp = KeepCookie | SetTokenCookie(token: string) | ClearTokenCookie

  /** The message every handler's catch block sends with status 500. */
  const ServerError: string := "Server error"
}

/** What a route handler sends back: a status code and the JSON body. */
module Http {
  import opened Optional

  datatype Body =
    | Error(error: string)
    | Registered(message: string, issuedToken: string)
    | SignedIn(message: string, token: Option<string>, dashboard: string)
    | Message(message: string)

  datatype Response = Response(status: int, body: Body)
}

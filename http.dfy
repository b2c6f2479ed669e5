/** What a handler sends back: a status code and a JSON (or plain) body,
    and the request bodies the handlers read. */
module Http {
  import opened Wrappers
  import opened Users
  import opened Jwt

  datatype Body =
    | Message(message: string)                                  // { message }
    | PlainText(text: string)                                   // a bare string body
    | DriverError                                               // { error: err.message }
    | SignedIn(message: string, user: PublicUser, token: Token) // { message, user, token }
    | ProfileData(message: string, user: PublicUser)            // { message, user }
    | TokenOnly(token: Token)                                   // { token }
    | Record(found: Option<PublicUser>)                         // a document without its password, or null
    | FullRecord(message: string, record: User)                 // { message, user } with every stored field
    | Card(username: string, email: string)                     // { username, email }

  datatype Response = Response(status: nat, body: Body)

  /** `{ username, email, password }` */
  datatype Registration = Registration(username: string, email: string, password: string)

  /** `{ email, password }` */
  datatype Credentials = Credentials(email: string, password: string)
}

/** server.js: a self-contained fake API over one module-level record.
    Register overwrites the record, change-password overwrites its
    password, and the other routes only read it. Request fields are
    optional values: a field missing from the body is `undefined`, and
    `undefined === undefined` holds. */
module MemoryServer {
  import opened Wrappers

  type Field = Option<string>

  datatype Account = Account(nama: Field, email: Field, password: Field)

  const Initial := Account(Some("John Doe"), Some("john@example.com"), Some("123456"))

  const Registered := "User registered successfully"
  const LoginSucceeded := "Login successful"
  const BadCredentials := "Invalid email or password"
  const ResetSent := "Password reset link sent to email"
  const EmailNotFound := "Email not found"
  const PasswordUpdated := "Password updated successfully"

  datatype ServerBody =
    | Note(message: string)                    // { message }
    | Echo(message: string, user: Account)     // { message, user }
    | Greeting(nama: Field)                    // { nama }

  datatype Reply = Reply(status: nat, body: ServerBody)

  class Server {
    /** `let user = {...}` */
    var user: Account

    constructor ()
      ensures user == Initial
    {
      user := Initial;
    }

    /** `POST /register`: the record becomes exactly the submitted
        `{nama, email, password}`, echoed back with 201. */
    method Register(nama: Field, email: Field, password: Field) returns (r: Reply)
      modifies this
      ensures user == Account(nama, email, password)
      ensures r == Reply(201, Echo(Registered, user))
    {
      user := Account(nama, email, password);
      r := Reply(201, Echo(Registered, user));
    }

    /** `POST /login`: succeeds exactly when both fields equal the stored
        ones, and then echoes the whole record, password included. */
    function Login(email: Field, password: Field): (r: Reply)
      reads this
      ensures r.status == 200 <==> email == user.email && password == user.password
      ensures r.status == 200 ==> r.body == Echo(LoginSucceeded, user)
      ensures r.status != 200 ==> r == Reply(401, Note(BadCredentials))
    {
      if email == user.email && password == user.password then Reply(200, Echo(LoginSucceeded, user))
      else Reply(401, Note(BadCredentials))
    }

    /** `POST /forgot-password`: 200 exactly for the stored email, else 404. */
    function ForgotPassword(email: Field): (r: Reply)
      reads this
      ensures r.status == 200 <==> email == user.email
      ensures r.status == 200 ==> r.body == Note(ResetSent)
      ensures r.status != 200 ==> r == Reply(404, Note(EmailNotFound))
    {
      if email == user.email then Reply(200, Note(ResetSent)) else Reply(404, Note(EmailNotFound))
    }

    /** `PUT /change-password`: only the password changes. */
    method ChangePassword(password: Field) returns (r: Reply)
      modifies this
      ensures user.nama == old(user.nama) && user.email == old(user.email)
      ensures user.password == password
      ensures r == Reply(200, Note(PasswordUpdated))
    {
      user := user.(password := password);
      r := Reply(200, Note(PasswordUpdated));
    }

    /** `GET /home`: the stored name. */
    function Home(): (r: Reply)
      reads this
      ensures r.status == 200 && r.body.Greeting? && r.body.nama == user.nama
    {
      Reply(200, Greeting(user.nama))
    }
  }

  /** Right after `register(n, e, p)`, `login(e, p)` succeeds, and login
      with any other password fails. */
  method RegisterThenLogin(s: Server, nama: Field, email: Field, password: Field, other: Field)
    returns (ok: Reply, refused: Reply)
    requires other != password
    modifies s
    ensures ok == Reply(200, Echo(LoginSucceeded, Account(nama, email, password)))
    ensures refused == Reply(401, Note(BadCredentials))
  {
    var _ := s.Register(nama, email, password);
    ok := s.Login(email, password);
    refused := s.Login(email, other);
  }

  /** After a password change the new password logs in and the name and
      email stay; the old one stops working when it differs. */
  method ChangeThenLogin(s: Server, password: Field) returns (ok: Reply, stale: Reply)
    modifies s
    ensures s.user == old(s.user).(password := password)
    ensures ok == Reply(200, Echo(LoginSucceeded, s.user))
    ensures old(s.user.password) != password ==> stale == Reply(401, Note(BadCredentials))
  {
    var before := s.user;
    var _ := s.ChangePassword(password);
    ok := s.Login(s.user.email, password);
    stale := s.Login(s.user.email, before.password);
  }

  /** In the initial state the fixed John Doe account logs in and its email
      is the one that gets a reset link. */
  method InitialState() returns (s: Server, login: Reply, reset: Reply)
    ensures fresh(s) && s.user == Initial
    ensures login == Reply(200, Echo(LoginSucceeded, Initial))
    ensures reset == Reply(200, Note(ResetSent))
  {
    s := new Server();
    login := s.Login(Some("john@example.com"), Some("123456"));
    reset := s.ForgotPassword(Some("john@example.com"));
  }
}

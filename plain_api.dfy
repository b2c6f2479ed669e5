/** api/index.js: the Express API over Mongoose that keeps passwords in
    plaintext. Register saves every request; login matches email and
    password together; the username lookup returns a card. */
module PlainApi {
  import opened Wrappers
  import opened Users
  import opened Http

  const Registered := "User registered!"
  const LoginFailed := "Login failed"
  const LoginSucceeded := "Login success"
  const NotFound := "User not found"

  /** `POST /api/register`: save `{username, email, password}` as given. */
  method Register(store: UserStore, username: string, email: string, password: string) returns (r: Response)
    requires store.Valid()
    modifies store
    ensures store.Valid()
    ensures r == Response(200, Message(Registered))
    ensures |store.records| == |old(store.records)| + 1
    ensures store.records[..|old(store.records)|] == old(store.records)
    ensures var u := store.records[|old(store.records)|];
            u.username == username && u.email == email && u.password == password &&
            forall v :: v in old(store.records) ==> v.id != u.id
  {
    ghost var before := store.records;
    var u := store.Add(username, email, password);
    assert store.records[..|before|] == before;
    r := Response(200, Message(Registered));
  }

  /** `POST /api/login`: `findOne({ email, password })`. */
  function Login(users: seq<User>, email: string, password: string): (r: Response)
    ensures r.status == 200 <==> exists u :: u in users && u.email == email && u.password == password
    ensures r.status != 200 ==> r == Response(401, Message(LoginFailed))
    ensures r.status == 200 ==>
              && r.body.FullRecord? && r.body.message == LoginSucceeded
              && r.body.record in users && r.body.record.email == email && r.body.record.password == password
  {
    match FirstWhere(users, (u: User) => u.email == email && u.password == password)
    case None => Response(401, Message(LoginFailed))
    case Some(u) => Response(200, FullRecord(LoginSucceeded, u))
  }

  /** Registering the same email and username twice is accepted: both
      requests get 200 and both records are stored, under different ids. */
  method RegisterTwice(store: UserStore, username: string, email: string, first: string, second: string)
    returns (r1: Response, r2: Response)
    requires store.Valid()
    modifies store
    ensures store.Valid()
    ensures r1 == Response(200, Message(Registered)) && r2 == Response(200, Message(Registered))
    ensures |store.records| == |old(store.records)| + 2
    ensures var a := store.records[|old(store.records)|];
            var b := store.records[|old(store.records)| + 1];
            a in store.records && b in store.records && a.id != b.id &&
            a.username == b.username == username && a.email == b.email == email &&
            a.password == first && b.password == second
    ensures !UniqueEmails(store.records) && !UniqueUsernames(store.records)
  {
    ghost var before := store.records;
    r1 := Register(store, username, email, first);
    ghost var middle := store.records;
    r2 := Register(store, username, email, second);
    assert store.records[..|middle|] == middle;
    assert middle[..|before|] == before;
    assert store.records[|before|] == middle[|before|];
    assert middle[|before|] in middle;
  }

  /** `GET /api/user/:username`. */
  function UserByName(users: seq<User>, username: string): (r: Response)
    ensures r.status == 404 <==> !UsernameTaken(users, username)
    ensures r.status == 404 ==> r.body == Message(NotFound)
    ensures r.status != 404 ==>
              r.status == 200 && exists u :: u in users && u.username == username && r.body == Card(u.username, u.email)
  {
    match FirstByUsername(users, username)
    case None => Response(404, Message(NotFound))
    case Some(u) => Response(200, Card(u.username, u.email))
  }
}

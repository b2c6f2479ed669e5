/** netlify/functions/register.js: the serverless register function. The
    body is parsed first; any failure up to the save is a 500. */
module NetlifyRegister {
  import opened Wrappers
  import opened Users
  import Hasher
  import opened Http

  const EmailInUse := "Email sudah digunakan"
  const Registered := "Registrasi berhasil"

  /** `handler(event)`: `body` is `None` when `JSON.parse(event.body)`
      fails or yields nothing to destructure. */
  method Handler(store: UserStore, body: Option<Registration>, outage: bool) returns (r: Response)
    requires store.Valid()
    modifies store
    ensures store.Valid()
    ensures r.status in {201, 400, 500}
    ensures body.None? || outage ==> r == Response(500, DriverError)
    ensures body.Some? && !outage && EmailTaken(old(store.records), body.value.email) ==>
              r == Response(400, Message(EmailInUse))
    ensures r.status == 201 <==> body.Some? && !outage && !EmailTaken(old(store.records), body.value.email)
    ensures r.status != 201 ==> store.records == old(store.records)
    ensures r.status == 201 ==>
              && r.body == Message(Registered)
              && |store.records| == |old(store.records)| + 1
              && store.records[..|old(store.records)|] == old(store.records)
              && var u := store.records[|old(store.records)|];
                 u.username == body.value.username && u.email == body.value.email &&
                 u.password == Hasher.Hash(body.value.password) &&
                 forall v :: v in old(store.records) ==> v.id != u.id
    ensures UniqueEmails(old(store.records)) ==> UniqueEmails(store.records)
  {
    if body.None? || outage {
      return Response(500, DriverError);
    }
    var form := body.value;
    if FirstByEmail(store.records, form.email).Some? {
      return Response(400, Message(EmailInUse));
    }
    ghost var before := store.records;
    var u := store.Add(form.username, form.email, Hasher.Hash(form.password));
    assert store.records[..|before|] == before;
    assert forall i :: 0 <= i < |before| ==> before[i] in before;
    r := Response(201, Message(Registered));
  }
}

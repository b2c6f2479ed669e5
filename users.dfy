/** The user table shared by the document-store variants: the records,
    the queries the handlers run against them ("first by email", "by id",
    "first by username") and the one write they perform ("add"). */
module Users {
  import opened Wrappers

  /** Store-assigned document identifier. */
  type Id = nat

  /** A stored account `{id, username, email, password}`; `password` holds
      whatever the handler chose to save (a digest, or the plaintext). */
  datatype User = User(id: Id, username: string, email: string, password: string)

  /** The public-safe projection `{id, username, email}`. */
  datatype PublicUser = PublicUser(id: Id, username: string, email: string)

  function Public(u: User): (p: PublicUser)
    ensures p.id == u.id && p.username == u.username && p.email == u.email
  {
    PublicUser(u.id, u.username, u.email)
  }

  /** The projection does not depend on the stored password. */
  lemma PublicIgnoresPassword(u: User, password: string)
    ensures Public(u.(password := password)) == Public(u)
  {
  }

  ghost predicate EmailTaken(rs: seq<User>, email: string) {
    exists u :: u in rs && u.email == email
  }

  ghost predicate UsernameTaken(rs: seq<User>, username: string) {
    exists u :: u in rs && u.username == username
  }

  ghost predicate UniqueEmails(rs: seq<User>) {
    forall i, j :: 0 <= i < j < |rs| ==> rs[i].email != rs[j].email
  }

  ghost predicate UniqueUsernames(rs: seq<User>) {
    forall i, j :: 0 <= i < j < |rs| ==> rs[i].username != rs[j].username
  }

  /** Ids grow in insertion order, so in particular no two records share one. */
  ghost predicate IdsAscending(rs: seq<User>) {
    forall i, j :: 0 <= i < j < |rs| ==> rs[i].id < rs[j].id
  }

  /** Position of the first record satisfying `p`, or `|rs|` when none does. */
  function FirstIndex(rs: seq<User>, p: User -> bool): (k: nat)
    ensures k <= |rs|
    ensures forall j :: 0 <= j < k ==> !p(rs[j])
    ensures k < |rs| ==> p(rs[k])
  {
    if rs == [] then 0
    else if p(rs[0]) then 0
    else 1 + FirstIndex(rs[1..], p)
  }

  /** The query `findOne(filter)`: the first record in store order that
      satisfies the filter. */
  function FirstWhere(rs: seq<User>, p: User -> bool): (r: Option<User>)
    ensures r.None? <==> forall u :: u in rs ==> !p(u)
    ensures r.Some? ==> exists k :: 0 <= k < |rs| && rs[k] == r.value && p(rs[k]) &&
                          forall j :: 0 <= j < k ==> !p(rs[j])
  {
    var k := FirstIndex(rs, p);
    if k < |rs| then Some(rs[k]) else None
  }

  /** `where('email', '==', email)` / `findOne({ email })`, first hit. */
  function FirstByEmail(rs: seq<User>, email: string): (r: Option<User>)
    ensures r.None? <==> !EmailTaken(rs, email)
    ensures r.Some? ==> r.value in rs && r.value.email == email
  {
    FirstWhere(rs, (u: User) => u.email == email)
  }

  /** `where('username', '==', username)` / `findOne({ username })`, first hit. */
  function FirstByUsername(rs: seq<User>, username: string): (r: Option<User>)
    ensures r.None? <==> !UsernameTaken(rs, username)
    ensures r.Some? ==> r.value in rs && r.value.username == username
  {
    FirstWhere(rs, (u: User) => u.username == username)
  }

  /** `doc(id).get()` / `findById(id)`. */
  function FindById(rs: seq<User>, id: Id): (r: Option<User>)
    ensures r.None? <==> forall u :: u in rs ==> u.id != id
    ensures r.Some? ==> r.value in rs && r.value.id == id
  {
    FirstWhere(rs, (u: User) => u.id == id)
  }

  /** Appending a record leaves every earlier first hit in place, and the
      new record becomes the first hit only when nothing before it matched. */
  lemma {:induction false} FirstWhereAppend(rs: seq<User>, u: User, p: User -> bool)
    ensures FirstWhere(rs + [u], p) ==
              if FirstWhere(rs, p).Some? then FirstWhere(rs, p)
              else if p(u) then Some(u) else None
  {
    if rs == [] {
      assert rs + [u] == [u];
    } else {
      assert (rs + [u])[1..] == rs[1..] + [u];
      FirstWhereAppend(rs[1..], u, p);
    }
  }

  /** A record appended under an email nobody used is what a later email
      lookup finds. */
  lemma FirstByEmailAfterAppend(rs: seq<User>, u: User)
    requires !EmailTaken(rs, u.email)
    ensures FirstByEmail(rs + [u], u.email) == Some(u)
  {
    FirstWhereAppend(rs, u, (v: User) => v.email == u.email);
  }

  /** With ascending ids, looking a stored record up by its id finds it. */
  lemma FindByIdOfMember(rs: seq<User>, u: User)
    requires IdsAscending(rs) && u in rs
    ensures FindById(rs, u.id) == Some(u)
  {
    var r := FindById(rs, u.id);
    var i :| 0 <= i < |rs| && rs[i] == r.value;
    var j :| 0 <= j < |rs| && rs[j] == u;
    assert i == j;
  }

  /** The document store as a mutable object: its records in insertion
      order and the next identifier it will hand out. */
  class UserStore {
    var records: seq<User>
    var nextId: Id

    ghost predicate Valid()
      reads this
    {
      IdsAscending(records) &&
      forall i :: 0 <= i < |records| ==> records[i].id < nextId
    }

    constructor ()
      ensures Valid() && records == []
    {
      records := [];
      nextId := 0;
    }

    /** `usersRef.add({...})` / `new User({...}).save()`: store one new
        record under a fresh id and return it. */
    method Add(username: string, email: string, password: string) returns (u: User)
      requires Valid()
      modifies this
      ensures Valid()
      ensures u == User(old(nextId), username, email, password)
      ensures records == old(records) + [u]
      ensures forall v :: v in old(records) ==> v.id != u.id
    {
      u := User(nextId, username, email, password);
      records := records + [u];
      nextId := nextId + 1;
    }
  }
}

/** The `/api/register` and `/api/login` handlers of the server over an abstract Users table.
    Password hashing and comparison are parameters (bcrypt is not modelled). */
module ServerUsers {
  import opened Common

  /** A row of the Users table as these handlers write it; `password` holds the hash. */
  datatype UserRecord = UserRecord(name: string, email: string, password: string,
                                   cluster: string, clusterLead: string)

  /** The register body; a field the client left out is None. */
  datatype RegisterRequest = RegisterRequest(name: Option<string>, email: Option<string>,
                                             password: Option<string>, cluster: Option<string>,
                                             clusterLead: Option<string>)

  /** A text reply with its status. */
  datatype Response = Response(status: nat, text: string)

  /** A string field is truthy when present and non-empty. */
  predicate Truthy(f: Option<string>)
  {
    f.Some? && f.value != ""
  }

  predicate AllFieldsPresent(req: RegisterRequest)
  {
    Truthy(req.name) && Truthy(req.email) && Truthy(req.password) && Truthy(req.cluster)
    && Truthy(req.clusterLead)
  }

  /** `SELECT * FROM Users WHERE email = @email`, in table order. */
  function WithEmail(users: seq<UserRecord>, email: string): (r: seq<UserRecord>)
    ensures forall u :: u in r <==> u in users && u.email == email
    ensures |r| <= |users|
    decreases |users|
  {
    if users == [] then []
    else (if users[0].email == email then [users[0]] else []) + WithEmail(users[1..], email)
  }

  /** No two rows share an email. */
  predicate UniqueEmails(users: seq<UserRecord>)
  {
    forall i, j :: 0 <= i < j < |users| ==> users[i].email != users[j].email
  }

  /** POST /api/register. The field check comes first and touches no table; a taken email is
      refused; otherwise one row with the hashed password is inserted. When the store fails
      (`available` false) the reply is 500 and nothing is inserted. */
  function Register(users: seq<UserRecord>, req: RegisterRequest, hash: string -> string,
                    available: bool): (r: (Response, seq<UserRecord>))
    ensures !AllFieldsPresent(req) ==> r == (Response(400, "All fields are required"), users)
    ensures AllFieldsPresent(req) && !available ==> r == (Response(500, "Error registering user"), users)
    ensures AllFieldsPresent(req) && available && WithEmail(users, req.email.value) != [] ==>
              r == (Response(400, "Email already exists"), users)
    ensures r.0.status == 201 <==> AllFieldsPresent(req) && available && WithEmail(users, req.email.value) == []
    ensures r.0.status == 201 ==>
              && r.0.text == "User registered"
              && r.1 == users + [UserRecord(req.name.value, req.email.value, hash(req.password.value),
                                            req.cluster.value, req.clusterLead.value)]
    ensures r.0.status != 201 ==> r.1 == users
  {
    if !AllFieldsPresent(req) then (Response(400, "All fields are required"), users)
    else if !available then (Response(500, "Error registering user"), users)
    else if |WithEmail(users, req.email.value)| > 0 then (Response(400, "Email already exists"), users)
    else
      var row := UserRecord(req.name.value, req.email.value, hash(req.password.value),
                            req.cluster.value, req.clusterLead.value);
      (Response(201, "User registered"), users + [row])
  }

  /** A successful registration keeps emails unique. */
  lemma RegisterKeepsEmailsUnique(users: seq<UserRecord>, req: RegisterRequest, hash: string -> string,
                                  available: bool)
    requires UniqueEmails(users)
    ensures UniqueEmails(Register(users, req, hash, available).1)
  {
    var (resp, after) := Register(users, req, hash, available);
    if resp.status == 201 {
      forall i, j | 0 <= i < j < |after| ensures after[i].email != after[j].email {
        if j == |users| {
          assert after[i] == users[i] && users[i] in users;
          assert users[i] !in WithEmail(users, req.email.value);
        } else {
          assert after[i] == users[i] && after[j] == users[j];
        }
      }
    }
  }

  /** The login reply: the user as JSON, a JSON error, or a text error. */
  datatype LoginReply = LoggedIn(user: UserRecord) | Rejected(status: nat, error: string)
                      | Failed(status: nat, text: string)

  const InvalidLogin := Rejected(401, "Invalid email or password")

  /** POST /api/login. The user is returned only when exactly one row has the email and the
      password matches its hash; an unknown email and a wrong password give the same 401. A
      missing email matches no row; a missing password makes the comparison throw (500). */
  function Login(users: seq<UserRecord>, email: Option<string>, password: Option<string>,
                 compare: (string, string) -> bool, available: bool): (r: LoginReply)
    ensures !available ==> r == Failed(500, "Error logging in")
    ensures r.LoggedIn? <==> (available && email.Some? && password.Some?
                              && |WithEmail(users, email.value)| == 1
                              && compare(password.value, WithEmail(users, email.value)[0].password))
    ensures r.LoggedIn? ==> r.user in users && r.user.email == email.value
    ensures available && (email.None? || WithEmail(users, email.value) == []) ==> r == InvalidLogin
    ensures (available && email.Some? && password.Some? && |WithEmail(users, email.value)| == 1
             && !compare(password.value, WithEmail(users, email.value)[0].password)) ==> r == InvalidLogin
    ensures available && email.Some? && |WithEmail(users, email.value)| != 1 ==> r == InvalidLogin
    ensures available && email.Some? && password.None? && |WithEmail(users, email.value)| == 1 ==>
              r == Failed(500, "Error logging in")
  {
    if !available then Failed(500, "Error logging in")
    else if email.None? then InvalidLogin
    else
      var found := WithEmail(users, email.value);
      if |found| == 1 then
        if password.None? then Failed(500, "Error logging in")
        else if compare(password.value, found[0].password) then LoggedIn(found[0])
        else InvalidLogin
      else InvalidLogin
  }

  lemma {:induction false} WithEmailAppend(users: seq<UserRecord>, u: UserRecord, email: string)
    ensures WithEmail(users + [u], email) == WithEmail(users, email) + (if u.email == email then [u] else [])
    decreases |users|
  {
    if users == [] {
      assert [u][1..] == [];
    } else {
      var all := users + [u];
      assert all[0] == users[0] && all[1..] == users[1..] + [u];
      WithEmailAppend(users[1..], u, email);
      var head := if users[0].email == email then [users[0]] else [];
      assert WithEmail(all, email) == head + WithEmail(users[1..] + [u], email);
      assert WithEmail(users, email) == head + WithEmail(users[1..], email);
    }
  }

  /** Round trip: once registered, the same email and password log in as the new row, provided
      the comparison accepts a password against its own hash. */
  lemma RegisterThenLogin(users: seq<UserRecord>, req: RegisterRequest, hash: string -> string,
                          compare: (string, string) -> bool)
    requires Register(users, req, hash, true).0.status == 201
    requires compare(req.password.value, hash(req.password.value))
    ensures var after := Register(users, req, hash, true).1;
            Login(after, req.email, req.password, compare, true) == LoggedIn(after[|users|])
  {
    var after := Register(users, req, hash, true).1;
    var row := after[|users|];
    assert after == users + [row];
    WithEmailAppend(users, row, req.email.value);
    assert WithEmail(after, req.email.value) == [row];
  }
}

/** The legacy `/register` and `/login` routes, which keep `{username, password}` records in a
    users list read from a file at the start of each request. */
module LegacyRegister {
  import opened Common

  datatype Credential = Credential(username: string, password: string)

  /** `users.find(user => user.username === username)`, as the index of the first match. */
  function FindByName(users: seq<Credential>, username: string): (r: Option<nat>)
    ensures r.Some? ==> r.value < |users| && users[r.value].username == username
                        && forall j :: 0 <= j < r.value ==> users[j].username != username
    ensures r.None? <==> forall j :: 0 <= j < |users| ==> users[j].username != username
    decreases |users|
  {
    if users == [] then None
    else if users[0].username == username then Some(0)
    else match FindByName(users[1..], username)
      case None => None
      case Some(k) => Some(k + 1)
  }

  /** `users.find(user => user.username === username && user.password === password)`. */
  function FindMatch(users: seq<Credential>, username: string, password: string): (r: Option<nat>)
    ensures r.Some? ==> r.value < |users| && users[r.value] == Credential(username, password)
                        && forall j :: 0 <= j < r.value ==> users[j] != Credential(username, password)
    ensures r.None? <==> forall j :: 0 <= j < |users| ==> users[j] != Credential(username, password)
    decreases |users|
  {
    if users == [] then None
    else if users[0].username == username && users[0].password == password then Some(0)
    else match FindMatch(users[1..], username, password)
      case None => None
      case Some(k) => Some(k + 1)
  }

  /** No two stored records share a username. */
  predicate UniqueNames(users: seq<Credential>)
  {
    forall i, j :: 0 <= i < j < |users| ==> users[i].username != users[j].username
  }

  class UserList {
    var users: seq<Credential>

    /** Reading `users.json`: the parsed list, or an empty one when reading or parsing fails. */
    constructor FromFile(file: Option<seq<Credential>>)
      ensures file.None? ==> users == []
      ensures file.Some? ==> users == file.value
    {
      users := [];
      if file.Some? {
        users := file.value;
      }
    }

    /** `/register`: a taken username is refused with 400; otherwise the record is pushed. */
    method Register(username: string, password: string) returns (status: nat, message: string)
      modifies this
      ensures FindByName(old(users), username).Some? ==>
                status == 400 && message == "Username already exists" && users == old(users)
      ensures FindByName(old(users), username).None? ==>
                status == 200 && message == "Registration successful"
                && users == old(users) + [Credential(username, password)]
    {
      var existing := FindByName(users, username);
      if existing.Some? {
        return 400, "Username already exists";
      }
      users := users + [Credential(username, password)];
      status, message := 200, "Registration successful";
    }

    /** `/login`: success exactly when some stored record has both the username and the password. */
    method Login(username: string, password: string) returns (status: nat, message: string)
      ensures (status == 200) <==> exists j :: 0 <= j < |users| && users[j] == Credential(username, password)
      ensures status == 200 ==> message == "Login successful"
      ensures status != 200 ==> status == 401 && message == "Invalid credentials"
    {
      var user := FindMatch(users, username, password);
      if user.None? {
        return 401, "Invalid credentials";
      }
      status, message := 200, "Login successful";
    }
  }

  /** Registering a fresh username keeps usernames unique. */
  lemma RegisterKeepsNamesUnique(users: seq<Credential>, username: string, password: string)
    requires UniqueNames(users) && FindByName(users, username).None?
    ensures UniqueNames(users + [Credential(username, password)])
  {
    var after := users + [Credential(username, password)];
    forall i, j | 0 <= i < j < |after| ensures after[i].username != after[j].username {
      if j == |users| {
        assert after[i] == users[i];
      } else {
        assert after[i] == users[i] && after[j] == users[j];
      }
    }
  }

  /** Looking a name up after a push: the earlier match if there is one, else the pushed record. */
  lemma {:induction false} FindByNameOfAppend(users: seq<Credential>, c: Credential, username: string)
    ensures FindByName(users + [c], username)
            == if FindByName(users, username).Some? then FindByName(users, username)
               else if c.username == username then Some(|users|) else None
    decreases |users|
  {
    if users != [] {
      assert (users + [c])[1..] == users[1..] + [c];
      FindByNameOfAppend(users[1..], c, username);
    }
  }

  /** Round trip: after a successful registration, login with the same credentials succeeds. */
  lemma RegisterThenLogin(users: seq<Credential>, username: string, password: string)
    requires FindByName(users, username).None?
    ensures FindMatch(users + [Credential(username, password)], username, password) == Some(|users|)
  {
    var after := users + [Credential(username, password)];
    assert after[|users|] == Credential(username, password);
    forall j | 0 <= j < |users| ensures after[j] != Credential(username, password) {
      assert after[j] == users[j];
    }
  }

  /** The same round trip through the route methods: a fresh name registered, then logged into. */
  method RegisterAndLogin(file: Option<seq<Credential>>, username: string, password: string)
    returns (registered: nat, loggedIn: nat)
    requires file.Some? ==> FindByName(file.value, username).None?
    ensures registered == 200 && loggedIn == 200
  {
    var list := new UserList.FromFile(file);
    var message;
    registered, message := list.Register(username, password);
    assert list.users[|list.users| - 1] == Credential(username, password);
    loggedIn, message := list.Login(username, password);
  }
}

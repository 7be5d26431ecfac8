/**
 * The authentication and session core of the HTTP server: registration,
 * login, logout, the isAuthenticated guard and the guarded project listing.
 * One client's session is modelled: its user slot is empty or holds the
 * snapshot written at login. Responses are a status and a JSON body.
 */
module Server {
  import opened Wrappers
  import opened Schema
  import opened Database
  import Bcrypt

  /** The snapshot stored in the session at login. */
  datatype SessionUser = SessionUser(id: nat, email: string, username: string)

  /** A JSON body: { message }, { error }, or the array of projects. */
  datatype Body = Message(text: string) | Error(text: string) | ProjectList(items: seq<ProjectWithTasks>)

  datatype Response = Response(status: int, body: Body)

  const UNAUTHORIZED: string := "Unauthorized. Please log in."
  const ALL_FIELDS_REQUIRED: string := "All fields are required."
  const EMAIL_EXISTS: string := "Email already exists."
  const REGISTERED: string := "User registered successfully."
  const INVALID_EMAIL: string := "Invalid email."
  const INCORRECT_PASSWORD: string := "Incorrect password."
  const LOGGED_IN: string := "Login successful."
  const LOGIN_SERVER_ERROR: string := "Server error during login."
  const LOGGED_OUT: string := "Logged out successfully."

  /** JavaScript truthiness of a string field of the request body: present and not empty. */
  predicate Present(f: Field<string>)
  {
    f.Given? && f.value != ""
  }

  class AuthServer {
    const store: Store
    var session: Option<SessionUser>

    ghost predicate Valid()
      reads this, store
    {
      store.Valid()
    }

    constructor (store: Store)
      requires store.Valid()
      ensures Valid() && this.store == store && session == None
    {
      this.store := store;
      session := None;
    }

    /** isAuthenticated: refuses with 401 when the session holds no user, else passes on the snapshot. */
    function Guard(): (r: Result<SessionUser, Response>)
      reads this
      ensures r.Failure? <==> session.None?
      ensures r.Failure? ==> r.error == Response(401, Error(UNAUTHORIZED))
      ensures r.Success? ==> r.value == session.value
    {
      if session.None? then Failure(Response(401, Error(UNAUTHORIZED))) else Success(session.value)
    }

    /** POST /api/register */
    method Register(username: Field<string>, email: Field<string>, password: Field<string>, salt: Bcrypt.Salt)
      returns (r: Response)
      requires Valid()
      modifies store
      ensures Valid() && UniqueEmails(store.users)
      ensures !(Present(username) && Present(email) && Present(password)) ==>
                r == Response(400, Error(ALL_FIELDS_REQUIRED)) && store.State() == old(store.State())
      ensures Present(username) && Present(email) && Present(password) && EmailTaken(old(store.users), email.value) ==>
                r == Response(400, Error(EMAIL_EXISTS)) && store.State() == old(store.State())
      ensures r.status == 200 <==>
                Present(username) && Present(email) && Present(password) && !EmailTaken(old(store.users), email.value)
      ensures r.status == 200 ==>
                var id := old(store.nextUserId);
                && r == Response(200, Message(REGISTERED))
                && id !in old(store.users)
                && store.State() == old(store.State()).(
                     users := old(store.users)[id := User(id, username.value, email.value, Bcrypt.Hash(salt, password.value))],
                     nextUserId := id + 1)
                && store.users[id].password != password.value
    {
      if !(Present(username) && Present(email) && Present(password)) {
        return Response(400, Error(ALL_FIELDS_REQUIRED));
      }
      var existing := store.FindUserByEmail(email.value);
      if existing.Some? {
        return Response(400, Error(EMAIL_EXISTS));
      }
      var hashed := Bcrypt.Hash(salt, password.value);
      var created := store.InsertUser(username, email, Given(hashed));
      assert created.Success?;
      r := Response(200, Message(REGISTERED));
    }

    /**
     * POST /api/login. A left-out email makes the query builder throw and a
     * missing password makes the hash comparison throw; both reach the
     * handler's catch block and its 500 reply. A null email matches no row.
     */
    method Login(email: Field<string>, password: Field<string>) returns (r: Response)
      requires Valid()
      modifies this`session
      ensures Valid()
      ensures r.status != 200 ==> session == old(session)
      ensures email.Absent? ==> r == Response(500, Error(LOGIN_SERVER_ERROR))
      ensures email.Null? || (email.Given? && !EmailTaken(store.users, email.value)) ==>
                r == Response(401, Error(INVALID_EMAIL))
      ensures email.Given? ==> forall id :: id in store.users && store.users[id].email == email.value ==>
                var u := store.users[id];
                if !password.Given? then r == Response(500, Error(LOGIN_SERVER_ERROR))
                else if Bcrypt.Verify(password.value, u.password)
                then r == Response(200, Message(LOGGED_IN)) && session == Some(SessionUser(u.id, u.email, u.username))
                else r == Response(401, Error(INCORRECT_PASSWORD))
    {
      if email.Absent? {
        return Response(500, Error(LOGIN_SERVER_ERROR));
      }
      if email.Null? {
        return Response(401, Error(INVALID_EMAIL));
      }
      var found := store.FindUserByEmail(email.value);
      if found.None? {
        return Response(401, Error(INVALID_EMAIL));
      }
      var u := found.value;
      if !password.Given? {
        return Response(500, Error(LOGIN_SERVER_ERROR));
      }
      if !Bcrypt.Verify(password.value, u.password) {
        return Response(401, Error(INCORRECT_PASSWORD));
      }
      session := Some(SessionUser(u.id, u.email, u.username));
      r := Response(200, Message(LOGGED_IN));
    }

    /** POST /api/logout: destroys the session whatever it held. */
    method Logout() returns (r: Response)
      requires Valid()
      modifies this`session
      ensures Valid()
      ensures session == None && r == Response(200, Message(LOGGED_OUT))
    {
      session := None;
      r := Response(200, Message(LOGGED_OUT));
    }

    /** GET /api/projects behind the guard: the session user's projects, each with its tasks. */
    method ListProjects() returns (r: Response)
      requires Valid()
      ensures session.None? ==> r == Response(401, Error(UNAUTHORIZED))
      ensures session.Some? ==> r.status == 200 && r.body.ProjectList?
      ensures session.Some? ==>
                forall i :: 0 <= i < |r.body.items| ==>
                  var p := r.body.items[i].project;
                  p.id in store.projects && store.projects[p.id] == p && p.userId == Some(session.value.id)
      ensures session.Some? ==>
                RowsAt(Heads(r.body.items), store.projects, ChildIds(store.projects, OwnerOf, session.value.id, store.nextProjectId))
      ensures session.Some? ==> ExactChildren(Heads(r.body.items), store.projects, ProjectKey, OwnerOf, session.value.id)
      ensures session.Some? ==> forall i :: 0 <= i < |r.body.items| ==>
                ExactChildren(r.body.items[i].tasks, store.tasks, TaskKey, ProjectOf, r.body.items[i].project.id)
    {
      var guard := Guard();
      if guard.Failure? {
        return guard.error;
      }
      var items := store.FindProjectsByOwner(guard.value.id);
      assert forall i :: 0 <= i < |items| ==> Heads(items)[i] == items[i].project;
      r := Response(200, ProjectList(items));
    }
  }

  /** Registers alice, then registers her email again. */
  method SignUp(salt: Bcrypt.Salt) returns (server: AuthServer, rs: seq<Response>)
    ensures fresh(server) && fresh(server.store) && server.Valid()
    ensures server.store.State()
            == Tables(map[1 := User(1, "alice", "a@x.com", Bcrypt.Hash(salt, "secret1"))], map[], map[], 2, 1, 1)
    ensures server.session == None
    ensures rs == [Response(200, Message(REGISTERED)), Response(400, Error(EMAIL_EXISTS))]
  {
    var store := new Store();
    server := new AuthServer(store);
    var r1 := server.Register(Given("alice"), Given("a@x.com"), Given("secret1"), salt);
    assert r1.status == 200;
    ghost var alice := User(1, "alice", "a@x.com", Bcrypt.Hash(salt, "secret1"));
    assert store.users == map[1 := alice];
    assert EmailTaken(store.users, "a@x.com") by {
      assert store.users[1].email == "a@x.com";
    }
    var r2 := server.Register(Given("alice"), Given("a@x.com"), Given("secret1"), salt);
    rs := [r1, r2];
  }

  /** After the sign-up, logs in with a wrong and then with the right password. */
  method SignUpAndLogIn(salt: Bcrypt.Salt) returns (server: AuthServer, rs: seq<Response>)
    ensures fresh(server) && fresh(server.store) && server.Valid()
    ensures server.store.State()
            == Tables(map[1 := User(1, "alice", "a@x.com", Bcrypt.Hash(salt, "secret1"))], map[], map[], 2, 1, 1)
    ensures server.session == Some(SessionUser(1, "a@x.com", "alice"))
    ensures rs == [
      Response(200, Message(REGISTERED)),
      Response(400, Error(EMAIL_EXISTS)),
      Response(401, Error(INCORRECT_PASSWORD)),
      Response(200, Message(LOGGED_IN))]
  {
    var signUp;
    server, signUp := SignUp(salt);
    ghost var alice := User(1, "alice", "a@x.com", Bcrypt.Hash(salt, "secret1"));
    assert server.store.users[1] == alice && server.store.users[1].email == "a@x.com";
    Bcrypt.VerifyHash(salt, "secret1", "wrong");
    var wrong := server.Login(Given("a@x.com"), Given("wrong"));
    assert wrong == Response(401, Error(INCORRECT_PASSWORD));
    Bcrypt.VerifyHash(salt, "secret1", "secret1");
    var right := server.Login(Given("a@x.com"), Given("secret1"));
    assert right == Response(200, Message(LOGGED_IN));
    rs := signUp + [wrong, right];
  }

  /**
   * The walkthrough: sign up and log in as above, list projects (none yet),
   * log out twice, and list again with the session gone.
   */
  method Walkthrough() returns (rs: seq<Response>)
    ensures rs == [
      Response(200, Message(REGISTERED)),
      Response(400, Error(EMAIL_EXISTS)),
      Response(401, Error(INCORRECT_PASSWORD)),
      Response(200, Message(LOGGED_IN)),
      Response(200, ProjectList([])),
      Response(200, Message(LOGGED_OUT)),
      Response(200, Message(LOGGED_OUT)),
      Response(401, Error(UNAUTHORIZED))]
  {
    var server, signUp := SignUpAndLogIn("0123456789abcdefghijkl");
    var listed := server.ListProjects();
    assert ChildIds(server.store.projects, OwnerOf, 1, 0) == [];
    assert ChildIds(server.store.projects, OwnerOf, 1, 1) == [];
    assert |Heads(listed.body.items)| == 0;
    assert listed == Response(200, ProjectList([]));
    var out1 := server.Logout();
    var out2 := server.Logout();
    var refused := server.ListProjects();
    assert refused == Response(401, Error(UNAUTHORIZED));
    rs := signUp + [listed, out1, out2, refused];
  }
}

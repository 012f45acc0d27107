/**
 * The decision chains of the signup and login handlers. The password hash
 * (bcrypt) and the strength estimator (zxcvbn) are foreign libraries; they are
 * parameters here, arrow-typed values whose behaviour is not modelled beyond
 * what a lemma asks of them.
 */
module Auth {
  import opened Documents
  import opened Responses

  const SaltRounds := 10

  const SignupView := "Signup"
  const LoginView := "Login"

  const MsgSignupEmpty := "Enter username and password"
  const MsgWeakPassword := "Password too weak. Try again!"
  const MsgEmailExists := "The email already exists"
  const MsgUsernameExists := "The username already exists"

  const MsgLoginEmpty := "Please enter username and password"
  const MsgUnknownUser := "The username doesn't exist"
  const MsgIncorrectPassword := "Incorrect password"

  /** A bcrypt salt: the cost factor and the random part the library generates. */
  datatype Salt = Salt(rounds: nat, random: string)

  /** The two bcrypt operations the routers call: hashing with a salt and checking a plaintext against a hash. */
  datatype Bcrypt = Bcrypt(hash: (string, Salt) -> string, compare: (string, string) -> bool)

  /** What bcrypt promises: a plaintext matches every hash made from it. */
  ghost predicate Sound(b: Bcrypt)
  {
    forall p, s :: b.compare(p, b.hash(p, s))
  }

  // -------------------------------------------------------------- lookups

  predicate UsernameTaken(users: map<UserId, User>, name: string)
  {
    exists id :: id in users && users[id].username == name
  }

  predicate EmailTaken(users: map<UserId, User>, email: string)
  {
    exists id :: id in users && users[id].email == email
  }

  ghost predicate UniqueUsernames(users: map<UserId, User>)
  {
    forall a, b :: a in users && b in users && users[a].username == users[b].username ==> a == b
  }

  /** Updates that keep every user's username keep usernames unique. */
  lemma SameUsernamesKeepUnique(users: map<UserId, User>, users': map<UserId, User>)
    requires UniqueUsernames(users) && users'.Keys == users.Keys
    requires forall id :: id in users ==> users'[id].username == users[id].username
    ensures UniqueUsernames(users')
  {
  }

  /** `User.findOne({ username })`: some user with that name, if there is one. */
  ghost function UserNamed(users: map<UserId, User>, name: string): (r: Option<UserId>)
    ensures r.None? <==> !UsernameTaken(users, name)
    ensures r.Some? ==> r.value in users && users[r.value].username == name
  {
    if UsernameTaken(users, name) then Some(var id :| id in users && users[id].username == name; id) else None
  }

  /** With unique usernames the lookup finds exactly the user that has the name. */
  lemma UserNamedIsUnique(users: map<UserId, User>, name: string, id: UserId)
    requires UniqueUsernames(users) && id in users && users[id].username == name
    ensures UserNamed(users, name) == Some(id)
  {
  }

  // --------------------------------------------------------------- signup

  /** The user document signup creates: no posts, no favourites. */
  function NewUser(username: string, email: string, hashedPassword: string): (r: User)
    ensures r.username == username && r.email == email && r.password == hashedPassword
    ensures r.posts == [] && r.favorites == []
  {
    User(username, email, hashedPassword, [], [])
  }

  /** What signup answers, and whether it creates a user. */
  datatype SignupDecision = SignupDecision(response: Response, creates: bool)

  /**
   * The signup chain: empty fields, then password strength, then the two
   * lookups. The email lookup is issued but never awaited, so it does not gate
   * creation: with the email lookup answering first, a taken email sends the
   * email message and the user is still created when the username is free.
   */
  function DecideSignup(username: string, password: string, zxcvbn: string -> int,
                        emailTaken: bool, usernameTaken: bool): (d: SignupDecision)
    ensures d.creates <==> username != "" && password != "" && zxcvbn(password) >= 1 && !usernameTaken
    ensures d.response.Redirect? <==> d.creates && !emailTaken
    ensures d.response.Redirect? ==> d.response.location == LoginPath
    ensures !d.response.Redirect? ==> d.response.Render? && d.response.view == SignupView
  {
    if username == "" || password == "" then
      SignupDecision(Render(SignupView, MsgSignupEmpty), false)
    else if zxcvbn(password) < 1 then
      SignupDecision(Render(SignupView, MsgWeakPassword), false)
    else if emailTaken then
      SignupDecision(Render(SignupView, MsgEmailExists), !usernameTaken)
    else if usernameTaken then
      SignupDecision(Render(SignupView, MsgUsernameExists), false)
    else
      SignupDecision(Redirect(LoginPath), true)
  }

  /** The rejections of signup, in the order the handler checks them. */
  lemma SignupRejections(username: string, password: string, zxcvbn: string -> int,
                         emailTaken: bool, usernameTaken: bool)
    ensures var d := DecideSignup(username, password, zxcvbn, emailTaken, usernameTaken);
            && (username == "" || password == "" ==> d == SignupDecision(Render(SignupView, MsgSignupEmpty), false))
            && (username != "" && password != "" && zxcvbn(password) < 1 ==>
                  d == SignupDecision(Render(SignupView, MsgWeakPassword), false))
            && (username != "" && password != "" && zxcvbn(password) >= 1 && !emailTaken && usernameTaken ==>
                  d == SignupDecision(Render(SignupView, MsgUsernameExists), false))
            && (username != "" && password != "" && zxcvbn(password) >= 1 && emailTaken ==>
                  d.response == Render(SignupView, MsgEmailExists))
  {
  }

  /** Whether a user is created does not depend on the email lookup. */
  lemma SignupEmailDoesNotGate(username: string, password: string, zxcvbn: string -> int, usernameTaken: bool)
    ensures DecideSignup(username, password, zxcvbn, true, usernameTaken).creates
            == DecideSignup(username, password, zxcvbn, false, usernameTaken).creates
  {
  }

  /** Signup adds exactly one user, under the fresh id, and keeps usernames unique. */
  lemma SignupKeepsUsernamesUnique(users: map<UserId, User>, id: UserId, username: string, email: string, hashed: string)
    requires UniqueUsernames(users) && id !in users && !UsernameTaken(users, username)
    ensures var users' := users[id := NewUser(username, email, hashed)];
            && users'.Keys == users.Keys + {id} && |users'| == |users| + 1
            && UniqueUsernames(users')
            && UserNamed(users', username) == Some(id)
  {
    var users' := users[id := NewUser(username, email, hashed)];
    forall a, b | a in users' && b in users' && users'[a].username == users'[b].username ensures a == b {
      if a != id && b != id {
        assert users'[a] == users[a] && users'[b] == users[b];
      }
    }
    UserNamedIsUnique(users', username, id);
  }

  /**
   * A concrete run in which signup leaves two users with one email: "ann"
   * holds the email, "bob" signs up with it and a free username.
   */
  lemma SignupCanDuplicateEmail()
    ensures var users := map[0 := NewUser("ann", "ann@example.org", "h0")];
            var d := DecideSignup("bob", "Tr0ub4dor&3", _ => 4,
                                  EmailTaken(users, "ann@example.org"), UsernameTaken(users, "bob"));
            var users' := if d.creates then users[1 := NewUser("bob", "ann@example.org", "h1")] else users;
            && d.creates && d.response == Render(SignupView, MsgEmailExists)
            && 0 in users' && 1 in users' && users'[0].email == users'[1].email
  {
    var users := map[0 := NewUser("ann", "ann@example.org", "h0")];
    assert EmailTaken(users, "ann@example.org") by { assert users[0].email == "ann@example.org"; }
    assert !UsernameTaken(users, "bob") by {
      assert "ann" != "bob" by { assert "ann"[0] != "bob"[0]; }
    }
  }

  // ---------------------------------------------------------------- login

  datatype LoginDecision = LoginFailed(message: string) | LoginSucceeded

  /** The login chain: empty fields, then the username lookup, then the password check. */
  function DecideLogin(username: string, password: string, found: Option<User>,
                       compare: (string, string) -> bool): (d: LoginDecision)
    ensures d.LoginSucceeded? <==> username != "" && password != "" && found.Some? && compare(password, found.value.password)
    ensures d.LoginFailed? ==> d.message in {MsgLoginEmpty, MsgUnknownUser, MsgIncorrectPassword}
  {
    if username == "" || password == "" then LoginFailed(MsgLoginEmpty)
    else if found.None? then LoginFailed(MsgUnknownUser)
    else if compare(password, found.value.password) then LoginSucceeded
    else LoginFailed(MsgIncorrectPassword)
  }

  /** Success redirects home; a failure renders the login form with its message. */
  function LoginResponse(d: LoginDecision): (r: Response)
    ensures r.Redirect? <==> d.LoginSucceeded?
    ensures r.Redirect? ==> r.location == HomePath
    ensures d.LoginFailed? ==> r.Render? && r.view == LoginView && r.errorMessage == d.message
  {
    match d
    case LoginSucceeded => Redirect(HomePath)
    case LoginFailed(message) => Render(LoginView, message)
  }

  /** The three login failures and their messages. */
  lemma LoginFailures(username: string, password: string, found: Option<User>, compare: (string, string) -> bool)
    ensures var d := DecideLogin(username, password, found, compare);
            && (username == "" || password == "" ==> d == LoginFailed(MsgLoginEmpty))
            && (username != "" && password != "" && found.None? ==> d == LoginFailed(MsgUnknownUser))
            && (username != "" && password != "" && found.Some? && !compare(password, found.value.password) ==>
                  d == LoginFailed(MsgIncorrectPassword))
  {
  }

  /**
   * The signup/login round trip: a user that signup created logs in with the
   * same username and password, provided bcrypt is sound.
   */
  lemma SignupThenLogin(users: map<UserId, User>, id: UserId, username: string, password: string, email: string,
                        zxcvbn: string -> int, b: Bcrypt, salt: Salt)
    requires Sound(b) && UniqueUsernames(users) && id !in users
    requires DecideSignup(username, password, zxcvbn, EmailTaken(users, email), UsernameTaken(users, username)).creates
    ensures var users' := users[id := NewUser(username, email, b.hash(password, salt))];
            var found := UserNamed(users', username);
            && found == Some(id)
            && DecideLogin(username, password, Some(users'[found.value]), b.compare) == LoginSucceeded
  {
    SignupKeepsUsernamesUnique(users, id, username, email, b.hash(password, salt));
    assert b.compare(password, b.hash(password, salt));
  }
}

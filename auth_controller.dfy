/** The backend's auth controller: `register` and `login` over the user collection. The
    collection is a table keyed by email; bcrypt's `hash` and `compare` and `jwt.sign` are
    functions the table is given, and a failure of any awaited step is an input naming the
    step and its message. */
module AuthController {
  import opened Wrappers

  /** A stored user. `passwordHash` is what was stored in the `password` field; `role` is
      `None` when the request carried none. */
  datatype User = User(id: int, name: string, email: string, passwordHash: string, role: Option<string>)

  /** The body of a register request. */
  datatype RegisterBody = RegisterBody(name: string, email: string, password: string, role: Option<string>)

  /** The awaited steps that can throw. */
  datatype Step = FindUser | HashPassword | CreateUser | ComparePassword | SignToken

  /** The step that throws during a call, with the error's message. */
  datatype Fault = Fault(step: Step, message: string)

  predicate FailsAt(fault: Option<Fault>, step: Step) {
    fault.Some? && fault.value.step == step
  }

  /** The claims a login token carries. */
  datatype Claims = Claims(id: int, role: Option<string>)

  /** What a handler sends: a status with `{ message }`, or the login result (status 200). */
  datatype Reply =
    | Message(status: int, message: string)
    | LoggedIn(token: string, role: Option<string>, name: string)

  /** The outcome of `register`: the reply and the table afterwards. */
  datatype Registered = Registered(reply: Reply, users: map<string, User>)

  /** `register`: a failed lookup is a 500; an existing email is a 400 and nothing is stored;
      otherwise the password is hashed and the user created with the request's role, unless
      either step fails (a 500, nothing stored). */
  function RegisterOutcome(users: map<string, User>, id: int, body: RegisterBody, hash: string -> string,
                           fault: Option<Fault>): (r: Registered)
    ensures r.users == users || r.users == users[body.email := User(id, body.name, body.email, hash(body.password), body.role)]
    ensures r.users != users ==> body.email !in users
  {
    if FailsAt(fault, FindUser) then Registered(Message(500, fault.value.message), users)
    else if body.email in users then Registered(Message(400, "Email already exists"), users)
    else if FailsAt(fault, HashPassword) || FailsAt(fault, CreateUser) then Registered(Message(500, fault.value.message), users)
    else
      var user := User(id, body.name, body.email, hash(body.password), body.role);
      Registered(Message(201, "User created successfully"), users[body.email := user])
  }

  /** `login`: a failed step is a 500; an unknown email and a wrong password are the same
      400; otherwise a token is signed over the user's id and role for seven days and returned
      with the role and name. */
  function LoginOutcome(users: map<string, User>, email: string, password: string,
                        compare: (string, string) -> bool, sign: (Claims, string) -> string,
                        fault: Option<Fault>): (r: Reply)
    ensures r.LoggedIn? ==> email in users && compare(password, users[email].passwordHash)
  {
    if FailsAt(fault, FindUser) then Message(500, fault.value.message)
    else if email !in users then Message(400, "Invalid credentials")
    else if FailsAt(fault, ComparePassword) then Message(500, fault.value.message)
    else if !compare(password, users[email].passwordHash) then Message(400, "Invalid credentials")
    else if FailsAt(fault, SignToken) then Message(500, fault.value.message)
    else
      var user := users[email];
      LoggedIn(sign(Claims(user.id, user.role), "7d"), user.role, user.name)
  }

  /** Registering an email that is already stored answers 400 "Email already exists" and
      leaves the table as it was (once the lookup succeeded). */
  lemma DuplicateEmailRejected(users: map<string, User>, id: int, body: RegisterBody, hash: string -> string, fault: Option<Fault>)
    requires body.email in users && !FailsAt(fault, FindUser)
    ensures RegisterOutcome(users, id, body, hash, fault) == Registered(Message(400, "Email already exists"), users)
  {
  }

  /** A new email with no failing step is stored with the hash of the password (never the
      password itself, unless the hash function returns it) and the role as sent, and the
      reply is 201. Every other user is kept. */
  lemma NewUserStoredHashed(users: map<string, User>, id: int, body: RegisterBody, hash: string -> string)
    requires body.email !in users
    ensures var r := RegisterOutcome(users, id, body, hash, None);
      && r.reply == Message(201, "User created successfully")
      && body.email in r.users
      && r.users[body.email].passwordHash == hash(body.password)
      && r.users[body.email].role == body.role
      && r.users[body.email].name == body.name
      && forall e :: e in users ==> e in r.users && r.users[e] == users[e]
  {
  }

  /** Any failing step of `register` answers 500 with the error's message and stores
      nothing. */
  lemma RegisterFaultStoresNothing(users: map<string, User>, id: int, body: RegisterBody, hash: string -> string, f: Fault)
    requires f.step == FindUser || (body.email !in users && (f.step == HashPassword || f.step == CreateUser))
    ensures RegisterOutcome(users, id, body, hash, Some(f)) == Registered(Message(500, f.message), users)
  {
  }

  /** An unknown email and a wrong password are answered alike, so a caller cannot learn
      which emails are registered. */
  lemma SameErrorForUnknownAndWrong(users: map<string, User>, unknown: string, known: string, p1: string, p2: string,
                                    compare: (string, string) -> bool, sign: (Claims, string) -> string)
    requires unknown !in users
    requires known in users && !compare(p2, users[known].passwordHash)
    ensures LoginOutcome(users, unknown, p1, compare, sign, None) == LoginOutcome(users, known, p2, compare, sign, None)
    ensures LoginOutcome(users, unknown, p1, compare, sign, None) == Message(400, "Invalid credentials")
  {
  }

  /** A matching password with no failing step returns a token signed over exactly the
      user's id and role with a seven-day expiry, together with the role and name. */
  lemma LoginSignsIdAndRole(users: map<string, User>, email: string, password: string,
                            compare: (string, string) -> bool, sign: (Claims, string) -> string)
    requires email in users && compare(password, users[email].passwordHash)
    ensures LoginOutcome(users, email, password, compare, sign, None) ==
      LoggedIn(sign(Claims(users[email].id, users[email].role), "7d"), users[email].role, users[email].name)
  {
  }

  /** Any failing step of `login` that is reached answers 500 with the error's message. */
  lemma LoginFaultIs500(users: map<string, User>, email: string, password: string,
                        compare: (string, string) -> bool, sign: (Claims, string) -> string, f: Fault)
    requires f.step == FindUser
      || (email in users && f.step == ComparePassword)
      || (email in users && compare(password, users[email].passwordHash) && f.step == SignToken)
    ensures LoginOutcome(users, email, password, compare, sign, Some(f)) == Message(500, f.message)
  {
  }

  /** With a `compare` that accepts a password against its own hash, a user who has just
      registered can log in with the same password. */
  lemma RegisterThenLogin(users: map<string, User>, id: int, body: RegisterBody, hash: string -> string,
                          compare: (string, string) -> bool, sign: (Claims, string) -> string)
    requires body.email !in users
    requires compare(body.password, hash(body.password))
    ensures var after := RegisterOutcome(users, id, body, hash, None).users;
      LoginOutcome(after, body.email, body.password, compare, sign, None) ==
        LoggedIn(sign(Claims(id, body.role), "7d"), body.role, body.name)
  {
  }

  /** The user collection with the controller's two handlers. `nextId` stands for the id the
      database gives the next created user. */
  class UserTable {
    var users: map<string, User>
    var nextId: int
    const hash: string -> string
    const compare: (string, string) -> bool
    const sign: (Claims, string) -> string

    constructor(hash: string -> string, compare: (string, string) -> bool, sign: (Claims, string) -> string)
      ensures users == map[] && nextId == 0 && Valid()
      ensures this.hash == hash && this.compare == compare && this.sign == sign
    {
      users := map[];
      nextId := 0;
      this.hash := hash;
      this.compare := compare;
      this.sign := sign;
    }

    /** Every stored user is stored under its own email. */
    predicate Valid()
      reads this
    {
      forall e :: e in users ==> users[e].email == e
    }

    /** `exports.register`: looks the email up, then, if it is new, hashes the password and
        inserts the user. */
    method Register(body: RegisterBody, fault: Option<Fault>) returns (reply: Reply)
      requires Valid()
      modifies this
      ensures Valid()
      ensures var r := RegisterOutcome(old(users), old(nextId), body, hash, fault);
        reply == r.reply && users == r.users
      ensures nextId == if users == old(users) then old(nextId) else old(nextId) + 1
    {
      if FailsAt(fault, FindUser) {
        return Message(500, fault.value.message);
      }
      if body.email in users {
        return Message(400, "Email already exists");
      }
      if FailsAt(fault, HashPassword) || FailsAt(fault, CreateUser) {
        return Message(500, fault.value.message);
      }
      var hashed := hash(body.password);
      var user := User(nextId, body.name, body.email, hashed, body.role);
      users := users[body.email := user];
      nextId := nextId + 1;
      reply := Message(201, "User created successfully");
    }

    /** `exports.login`: looks the email up, compares the password with the stored hash and
        signs a token. It changes nothing. */
    method Login(email: string, password: string, fault: Option<Fault>) returns (reply: Reply)
      ensures reply == LoginOutcome(users, email, password, compare, sign, fault)
    {
      if FailsAt(fault, FindUser) {
        return Message(500, fault.value.message);
      }
      if email !in users {
        return Message(400, "Invalid credentials");
      }
      var user := users[email];
      if FailsAt(fault, ComparePassword) {
        return Message(500, fault.value.message);
      }
      var matches := compare(password, user.passwordHash);
      if !matches {
        return Message(400, "Invalid credentials");
      }
      if FailsAt(fault, SignToken) {
        return Message(500, fault.value.message);
      }
      var token := sign(Claims(user.id, user.role), "7d");
      reply := LoggedIn(token, user.role, user.name);
    }
  }
}

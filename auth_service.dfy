/** backend/src/services/auth.service.ts: registration and login over a user store. The
    password hash, its comparison and the token signer are parameters. */
module AuthService {
  import opened Wrappers
  import opened Constants
  import opened AuthDto

  datatype User = User(id: string, name: string, email: string, passwordHash: string, role: string)

  /** What a login token is signed over: `{ userId }` with `expiresIn`. */
  datatype SignedClaims = SignedClaims(userId: string, expiresIn: string)

  /** The result of a login: the token and the user it was issued to. */
  datatype Session = Session(token: string, user: User)

  const AlreadyExists: string := "User already exists"
  const InvalidCredentials: string := "Invalid credentials"
  const TokenLifetime: string := "7d"

  predicate DistinctEmails(users: seq<User>) {
    forall i, j :: 0 <= i < j < |users| ==> users[i].email != users[j].email
  }

  /** `findUserByEmail`: the index of the first user, in insertion order, with this exact
      email, if any. */
  function FindByEmail(users: seq<User>, email: string): (r: Option<nat>)
    ensures r.Some? ==> r.value < |users| && users[r.value].email == email
    ensures r.Some? ==> forall k :: 0 <= k < r.value ==> users[k].email != email
    ensures r.None? <==> forall k :: 0 <= k < |users| ==> users[k].email != email
  {
    if users == [] then None
    else if users[0].email == email then Some(0)
    else match FindByEmail(users[1..], email)
      case None => None
      case Some(k) => Some(k + 1)
  }

  /** The user `createUser` stores: the hash in place of the password, and the schema's
      default role. */
  function NewUser(data: RegisterInput, newId: string, hash: string -> string): User {
    User(newId, data.name, data.email, hash(data.password), RoleMember)
  }

  /** `loginUser`: an unknown email and a wrong password fail with the same message, and a
      token is signed only when both checks pass. */
  function Login(users: seq<User>, data: LoginInput, compare: (string, string) -> bool,
                 sign: SignedClaims -> string): (r: Result<Session, string>)
    ensures r.Err? ==> r.error == InvalidCredentials
    ensures r.Ok? <==>
      FindByEmail(users, data.email).Some?
      && compare(data.password, users[FindByEmail(users, data.email).value].passwordHash)
    ensures r.Ok? ==>
      r.value.user.email == data.email
      && r.value == Session(sign(SignedClaims(r.value.user.id, TokenLifetime)), r.value.user)
      && r.value.user in users
  {
    match FindByEmail(users, data.email)
    case None => Err(InvalidCredentials)
    case Some(i) =>
      var user := users[i];
      if !compare(data.password, user.passwordHash) then Err(InvalidCredentials)
      else Ok(Session(sign(SignedClaims(user.id, TokenLifetime)), user))
  }

  /** The users collection, as far as registration and login see it. */
  class UserStore {
    var users: seq<User>

    ghost predicate Valid()
      reads this
    {
      DistinctEmails(users)
    }

    constructor()
      ensures users == [] && Valid()
    {
      users := [];
    }

    /** `registerUser`: a taken email fails and stores nothing; otherwise exactly one user
        is added, holding the hash of the password. */
    method RegisterUser(data: RegisterInput, newId: string, hash: string -> string)
      returns (r: Result<User, string>)
      requires Valid()
      modifies this
      ensures Valid()
      ensures FindByEmail(old(users), data.email).Some? ==>
        r == Err(AlreadyExists) && users == old(users)
      ensures FindByEmail(old(users), data.email).None? ==>
        r == Ok(NewUser(data, newId, hash)) && users == old(users) + [r.value]
    {
      var existing := FindByEmail(users, data.email);
      if existing.Some? {
        return Err(AlreadyExists);
      }
      var user := NewUser(data, newId, hash);
      users := users + [user];
      r := Ok(user);
    }

    /** `loginUser` against the stored users. */
    method LoginUser(data: LoginInput, compare: (string, string) -> bool, sign: SignedClaims -> string)
      returns (r: Result<Session, string>)
      ensures r == Login(users, data, compare, sign)
      ensures r.Ok? ==> r.value.user in users && r.value.user.email == data.email
    {
      var found := FindByEmail(users, data.email);
      if found.None? {
        return Err(InvalidCredentials);
      }
      var user := users[found.value];
      var isMatch := compare(data.password, user.passwordHash);
      if !isMatch {
        return Err(InvalidCredentials);
      }
      var token := sign(SignedClaims(user.id, TokenLifetime));
      r := Ok(Session(token, user));
    }
  }

  // ---------------------------------------------------------------------------

  /** The user a registration appends is the one found by its email afterwards. */
  lemma FindAfterRegister(users: seq<User>, u: User)
    requires FindByEmail(users, u.email).None?
    ensures FindByEmail(users + [u], u.email) == Some(|users|)
  {
    var all := users + [u];
    assert all[|users|].email == u.email;
    forall k | 0 <= k < |users| ensures all[k].email != u.email {
      assert all[k] == users[k];
    }
  }

  /** A fresh registration followed by a login with the same email and password succeeds,
      for a hash whose comparison accepts the password it hashed, and the token names the
      new user. */
  lemma RegisterThenLogin(users: seq<User>, data: RegisterInput, newId: string, hash: string -> string,
                          compare: (string, string) -> bool, sign: SignedClaims -> string)
    requires FindByEmail(users, data.email).None?
    requires compare(data.password, hash(data.password))
    ensures var u := NewUser(data, newId, hash);
      Login(users + [u], LoginInput(data.email, data.password), compare, sign)
        == Ok(Session(sign(SignedClaims(newId, TokenLifetime)), u))
  {
    FindAfterRegister(users, NewUser(data, newId, hash));
  }

  /** A second registration with the same email fails whatever the other fields are. */
  lemma SecondRegistrationFails(users: seq<User>, a: RegisterInput, b: RegisterInput, newId: string,
                                hash: string -> string)
    requires FindByEmail(users, a.email).None? && b.email == a.email
    ensures FindByEmail(users + [NewUser(a, newId, hash)], b.email).Some?
  {
    FindAfterRegister(users, NewUser(a, newId, hash));
  }
}

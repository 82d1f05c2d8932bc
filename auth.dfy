/**
 * The registration / login / logout routes of waste_logger_app/routes/auth.py, as
 * operations on a user store (the `users` table) and a session (the signed cookie
 * dictionary `request.session`).
 */
module Auth {
  import opened Common
  import opened Passwords

  datatype User = User(id: nat, username: string, email: string, hashedPassword: Digest)

  datatype RegisterError = DuplicateUser
  /** The one generic login failure, "Invalid username/email or password". */
  datatype LoginError = InvalidCredentials

  /** Row `i` matches the filter `(User.username == username) | (User.email == email)`. */
  predicate Hits(users: seq<User>, i: nat, username: string, email: string)
    requires i < |users|
  {
    users[i].username == username || users[i].email == email
  }

  /** Row `i` is what `.first()` returns for that filter. */
  ghost predicate IsFirstHit(users: seq<User>, i: nat, username: string, email: string) {
    i < |users| && Hits(users, i, username, email)
    && forall j :: 0 <= j < i ==> !Hits(users, j, username, email)
  }

  /** `db.query(User).filter((User.username == username) | (User.email == email)).first()`, as a position. */
  function FindUser(users: seq<User>, username: string, email: string): (r: Option<nat>)
    ensures r.None? <==> forall i :: 0 <= i < |users| ==> !Hits(users, i, username, email)
    ensures r.Some? ==> IsFirstHit(users, r.value, username, email)
  {
    if users == [] then None
    else if Hits(users, 0, username, email) then Some(0)
    else
      assert forall j :: 1 <= j < |users| ==> Hits(users, j, username, email) == Hits(users[1..], j - 1, username, email);
      match FindUser(users[1..], username, email)
      case None => None
      case Some(k) =>
        assert Hits(users, k + 1, username, email);
        Some(k + 1)
  }

  ghost predicate UniqueUsernames(users: seq<User>) {
    forall i, j :: 0 <= i < j < |users| ==> users[i].username != users[j].username
  }

  ghost predicate UniqueEmails(users: seq<User>) {
    forall i, j :: 0 <= i < j < |users| ==> users[i].email != users[j].email
  }

  /**
   * The decision of `login_user`: the first user whose username or email equals the
   * submitted identifier, accepted only if the password verifies against its hash.
   * A missing user and a wrong password give the same error.
   */
  function Authenticate(users: seq<User>, identifier: string, password: string): (r: Result<User, LoginError>)
    ensures r.Ok? <==> exists i: nat :: IsFirstHit(users, i, identifier, identifier)
                                  && VerifyPassword(password, users[i].hashedPassword)
    ensures r.Ok? ==> exists i: nat :: IsFirstHit(users, i, identifier, identifier) && r.value == users[i]
    ensures (forall i :: 0 <= i < |users| ==> users[i].username != identifier && users[i].email != identifier)
            ==> r == Err(InvalidCredentials)
  {
    match FindUser(users, identifier, identifier)
    case None => Err(InvalidCredentials)
    case Some(i) =>
      if VerifyPassword(password, users[i].hashedPassword) then Ok(users[i]) else Err(InvalidCredentials)
  }

  /** A wrong password for the selected user fails exactly like an unknown identifier. */
  lemma WrongPasswordFails(users: seq<User>, i: nat, identifier: string, password: string)
    requires IsFirstHit(users, i, identifier, identifier)
    requires !VerifyPassword(password, users[i].hashedPassword)
    ensures Authenticate(users, identifier, password) == Err(InvalidCredentials)
  {
  }

  /** Adding a user that clashes with nobody keeps usernames and emails unique. */
  lemma AppendKeepsUnique(users: seq<User>, u: User)
    requires UniqueUsernames(users) && UniqueEmails(users)
    requires forall i :: 0 <= i < |users| ==> !Hits(users, i, u.username, u.email)
    ensures UniqueUsernames(users + [u]) && UniqueEmails(users + [u])
  {
    var all := users + [u];
    forall i, j | 0 <= i < j < |all| ensures all[i].username != all[j].username && all[i].email != all[j].email {
      if j == |users| { assert !Hits(users, i, u.username, u.email); }
    }
  }

  /** The `users` table. Ids are the autoincrement primary key. */
  class UserStore {
    var users: seq<User>
    var nextId: nat

    /** Usernames and emails are unique, and every id is below the next one handed out. */
    ghost predicate Valid()
      reads this
    {
      UniqueUsernames(users) && UniqueEmails(users)
      && forall i :: 0 <= i < |users| ==> users[i].id < nextId
    }

    constructor ()
      ensures Valid() && users == [] && nextId == 1
    {
      users := [];
      nextId := 1;
    }

    /**
     * `register_user`: rejected, with the store untouched, when some user already has
     * the username or the email; otherwise exactly one user is appended.
     */
    method Register(username: string, email: string, password: string, salt: nat)
      returns (r: Result<User, RegisterError>)
      modifies this
      ensures r.Err? <==> exists i :: 0 <= i < |old(users)| && Hits(old(users), i, username, email)
      ensures r.Err? ==> r.error == DuplicateUser && users == old(users) && nextId == old(nextId)
      ensures r.Ok? ==>
        && r.value == User(old(nextId), username, email, HashPassword(password, salt))
        && users == old(users) + [r.value]
        && nextId == old(nextId) + 1
      ensures old(Valid()) ==> Valid()
    {
      if FindUser(users, username, email).Some? {
        return Err(DuplicateUser);
      }
      var u := User(nextId, username, email, HashPassword(password, salt));
      if Valid() {
        AppendKeepsUnique(users, u);
      }
      users := users + [u];
      nextId := nextId + 1;
      r := Ok(u);
    }
  }

  /** The session dictionary; only the two keys the routes write are modelled. */
  class Session {
    var userId: Option<nat>
    var username: Option<string>

    predicate IsEmpty()
      reads this
    {
      userId.None? && username.None?
    }

    constructor ()
      ensures IsEmpty()
    {
      userId := None;
      username := None;
    }
  }

  /**
   * `login_user`: on success the session holds the selected user's id and username;
   * on failure the session is left as it was.
   */
  method Login(store: UserStore, session: Session, identifier: string, password: string)
    returns (r: Result<User, LoginError>)
    modifies session
    ensures r == Authenticate(store.users, identifier, password)
    ensures r.Ok? ==> session.userId == Some(r.value.id) && session.username == Some(r.value.username)
    ensures r.Err? ==> session.userId == old(session.userId) && session.username == old(session.username)
  {
    r := Authenticate(store.users, identifier, password);
    if r.Ok? {
      session.userId := Some(r.value.id);
      session.username := Some(r.value.username);
    }
  }

  /** `logout_user`: `request.session.clear()`. */
  method Logout(session: Session)
    modifies session
    ensures session.IsEmpty()
  {
    session.userId := None;
    session.username := None;
  }

  /** Registering the same username twice: the second attempt fails and one user remains. */
  method RegisterTwiceScenario()
  {
    var store := new UserStore();
    var first := store.Register("alice", "alice@example.org", "secret-1", 7);
    assert first.Ok?;
    assert Hits(store.users, 0, "alice", "other@example.org");
    var second := store.Register("alice", "other@example.org", "secret-2", 8);
    assert second.Err?;
    assert second == Err(DuplicateUser);
    assert |store.users| == 1;
  }

  /** Register then log in by email, then a wrong password, then log out. */
  method LoginScenario()
  {
    var store := new UserStore();
    var session := new Session();
    var reg := store.Register("bob", "bob@example.org", "pw", 3);
    assert store.users == [User(1, "bob", "bob@example.org", HashPassword("pw", 3))];
    assert IsFirstHit(store.users, 0, "bob@example.org", "bob@example.org");
    var ok := Login(store, session, "bob@example.org", "pw");
    assert session.username == Some("bob");
    var bad := Login(store, session, "bob", "wrong");
    assert IsFirstHit(store.users, 0, "bob", "bob");
    WrongPasswordFails(store.users, 0, "bob", "wrong");
    assert bad == Err(InvalidCredentials) && session.username == Some("bob");
    Logout(session);
    assert session.IsEmpty();
  }
}

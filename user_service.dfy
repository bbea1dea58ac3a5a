/** `UserService`: user creation and the get-or-create lookups keyed by id
    and by guest id. Fresh UUIDs are supplied by the caller as `newId`. */
module UserService {
  import opened Wrappers
  import opened UserModel
  import opened Store

  const EMAIL_EXISTS := "Email already exists"
  const GUEST_NOT_FOUND := "Guest user not found"

  /** `createUser`: refuses an email some user already has; otherwise stores
      a new user with the given legacy name and email. */
  method CreateUser(db: Database, name: string, email: string, newId: UserId) returns (r: Result<User, string>)
    requires db.Valid() && newId !in db.users
    modifies db
    ensures db.Valid()
    ensures old(EmailTaken(db.users, email)) ==> r == Err(EMAIL_EXISTS) && db.State() == old(db.State())
    ensures !old(EmailTaken(db.users, email)) ==>
              && r == Ok(NewUser(newId).(name := Some(name), email := Some(email)))
              && db.State() == old(db.State()).(users := old(db.users)[newId := r.value])
  {
    if EmailTaken(db.users, email) {
      return Err(EMAIL_EXISTS);
    }
    var user := NewUser(newId).(name := Some(name), email := Some(email));
    db.users := db.users[newId := user];
    r := Ok(user);
  }

  /** `getUserById`: the stored user, or "User not found with id: <id>". */
  function GetUserById(users: map<UserId, User>, id: UserId): (r: Result<User, string>)
    ensures r.Ok? <==> id in users
    ensures r.Ok? ==> r.value == users[id]
    ensures r.Err? ==> r.error == "User not found with id: " + id
  {
    if id in users then Ok(users[id]) else Err("User not found with id: " + id)
  }

  /** `createGuestUser`: the user already holding `guestId`, or a new guest
      with that guest id and legacy name. */
  method CreateGuestUser(db: Database, guestId: string, name: string, newId: UserId) returns (u: User)
    requires db.Valid() && newId !in db.users
    modifies db
    ensures db.Valid()
    ensures u.guestId == Some(guestId) && u.id in db.users && db.users[u.id] == u
    ensures old(GuestIdTaken(db.users, guestId)) ==> db.State() == old(db.State()) && u in old(db.users).Values
    ensures !old(GuestIdTaken(db.users, guestId)) ==>
              && u == NewUser(newId).(name := Some(name), guestId := Some(guestId))
              && db.State() == old(db.State()).(users := old(db.users)[newId := u])
  {
    if GuestIdTaken(db.users, guestId) {
      var id :| id in db.users && db.users[id].guestId == Some(guestId);
      return db.users[id];
    }
    u := NewUser(newId).(name := Some(name), guestId := Some(guestId));
    db.users := db.users[newId := u];
  }

  /** `getUserByGuestId`: the user holding `guestId`, or "Guest user not found". */
  method GetUserByGuestId(db: Database, guestId: string) returns (r: Result<User, string>)
    requires db.Valid()
    ensures r.Ok? <==> GuestIdTaken(db.users, guestId)
    ensures r.Ok? ==> r.value.id in db.users && db.users[r.value.id] == r.value && r.value.guestId == Some(guestId)
    ensures r.Err? ==> r.error == GUEST_NOT_FOUND
  {
    if GuestIdTaken(db.users, guestId) {
      var id :| id in db.users && db.users[id].guestId == Some(guestId);
      r := Ok(db.users[id]);
    } else {
      r := Err(GUEST_NOT_FOUND);
    }
  }

  /** `getOrCreateByIdAndName`: an existing user is returned unchanged, even
      when `userName` differs; otherwise a user with exactly this id and name
      is created. */
  method GetOrCreateByIdAndName(db: Database, userId: UserId, userName: string) returns (u: User)
    requires db.Valid()
    modifies db
    ensures db.Valid()
    ensures userId in db.users && db.users[userId] == u && u.id == userId
    ensures userId in old(db.users) ==> u == old(db.users[userId]) && db.State() == old(db.State())
    ensures userId !in old(db.users) ==>
              && u == NewUser(userId).(name := Some(userName))
              && db.State() == old(db.State()).(users := old(db.users)[userId := u])
  {
    if userId in db.users {
      return db.users[userId];
    }
    u := NewUser(userId).(name := Some(userName));
    db.users := db.users[userId := u];
  }

  /** A repeated `getOrCreateByIdAndName` returns the same user and stores nothing. */
  method GetOrCreateTwice(db: Database, userId: UserId, name1: string, name2: string) returns (first: User, second: User)
    requires db.Valid()
    modifies db
    ensures first == second
    ensures db.users == old(db.users)[userId := first]
  {
    first := GetOrCreateByIdAndName(db, userId, name1);
    ghost var afterFirst := db.State();
    second := GetOrCreateByIdAndName(db, userId, name2);
    assert db.State() == afterFirst;
  }

  /** A repeated `createGuestUser` for one guest id returns the same user and
      never stores a second one. */
  method CreateGuestTwice(db: Database, guestId: string, name1: string, name2: string, id1: UserId, id2: UserId)
    returns (first: User, second: User)
    requires db.Valid() && id1 !in db.users && id2 !in db.users && id1 != id2
    modifies db
    ensures first == second
    ensures |db.users.Keys| <= |old(db.users).Keys| + 1
  {
    first := CreateGuestUser(db, guestId, name1, id1);
    assert GuestIdTaken(db.users, guestId);
    second := CreateGuestUser(db, guestId, name2, id2);
    assert first.id in db.users && second.id in db.users;
  }
}

/**
 * The user service: user records with a hashed credential, looked up by
 * id or by email, overwritten in place and soft-deleted.
 */
module UserSvc {
  import opened Wrappers
  import opened Models
  import opened Store
  import opened Proto

  /** Selects the live user with primary key `id` (`"id = ?"`). */
  function IdIs(id: string): User -> bool {
    (u: User) => UserLive(u) && u.id == id
  }

  /** Selects the live user registered with `email` (`"email = ?"`). */
  function EmailIs(email: string): User -> bool {
    (u: User) => UserLive(u) && u.email == email
  }

  /** A live-row lookup by a unique column finds exactly the row holding the value. */
  lemma FirstUnique(users: seq<User>, sel: User -> bool, i: nat)
    requires UniqueKeys(users, UserKeys)
    requires i < |users| && sel(users[i])
    requires forall k :: 0 <= k < |users| && sel(users[k]) ==>
               users[k].id == users[i].id || users[k].email == users[i].email
    ensures First(users, UserId, sel) == Some(i)
  {
    var r := First(users, UserId, sel);
    UserKeysUnique(users, r.value, i);
  }

  /** A row appended that the lookup does not select leaves the lookup's answer unchanged. */
  lemma {:induction false} FirstAppendUnselected(users: seq<User>, x: User, sel: User -> bool)
    requires !sel(x)
    ensures First(users + [x], UserId, sel) == First(users, UserId, sel)
  {
    assert (users + [x])[..|users|] == users;
  }

  /**
   * CreateUser: the credential stored is the bcrypt result for the request
   * password; a hashing failure or a username/email already held by any
   * stored row (tombstoned ones included) leaves the table unchanged.
   */
  function CreateUserSpec(users: seq<User>, req: CreateUserRequest, bcrypt: string -> Option<string>,
                          id: string, now: Time): (r: (seq<User>, Result<UserMsg>))
    ensures bcrypt(req.password).None? ==> r == (users, Err(HashFailure))
    ensures r.1.Err? ==> r.0 == users && (r.1.error == HashFailure || r.1.error == UniqueViolation)
    ensures (exists j :: 0 <= j < |users| && (users[j].username == req.username || users[j].email == req.email))
            ==> r.1.Err?
    ensures bcrypt(req.password).Some?
            && (forall j :: 0 <= j < |users| ==>
                  users[j].id != id && users[j].username != req.username && users[j].email != req.email)
            ==> r.1.Ok?
    ensures r.1 == Err(UniqueViolation) ==>
            exists j :: 0 <= j < |users| && (users[j].id == id || users[j].username == req.username
                                             || users[j].email == req.email)
    ensures r.1.Ok? ==> |r.0| == |users| + 1 && r.0[..|users|] == users
                        && r.0[|users|].password == bcrypt(req.password).value
                        && r.0[|users|].id == id && UserLive(r.0[|users|])
                        && r.0[|users|].username == req.username && r.0[|users|].email == req.email
                        && r.1.value == UserToMsg(r.0[|users|])
    ensures UniqueKeys(users, UserKeys) ==> UniqueKeys(r.0, UserKeys)
  {
    match bcrypt(req.password)
    case None => (users, Err(HashFailure))
    case Some(hashed) =>
      var user := User(id, req.username, req.email, hashed, now, now, None);
      match Insert(users, UserKeys, user)
      case Err(e) => (users, Err(e))
      case Ok(rows) => (rows, Ok(UserToMsg(user)))
  }

  /** GetUser: not-found exactly when no live user has the id; otherwise that user's public fields. */
  function GetUserSpec(users: seq<User>, id: string): (r: Result<UserMsg>)
    ensures r.Err? <==> forall k :: 0 <= k < |users| ==> !(UserLive(users[k]) && users[k].id == id)
    ensures r.Err? ==> r.error == RecordNotFound
    ensures r.Ok? ==> exists k :: 0 <= k < |users| && UserLive(users[k]) && users[k].id == id
                                  && r.value == UserToMsg(users[k])
  {
    match First(users, UserId, IdIs(id))
    case None => Err(RecordNotFound)
    case Some(i) => Ok(UserToMsg(users[i]))
  }

  /**
   * UpdateUser: overwrites username, email and the update time of the live
   * row with the id; id, credential, creation time and tombstone are kept.
   */
  function UpdateUserSpec(users: seq<User>, req: UpdateUserRequest, now: Time): (r: (seq<User>, Result<UserMsg>))
    ensures r.1.Err? ==> r.0 == users && (r.1.error == RecordNotFound || r.1.error == UniqueViolation)
    ensures r.1 == Err(RecordNotFound) <==>
            forall k :: 0 <= k < |users| ==> !(UserLive(users[k]) && users[k].id == req.id)
    ensures UniqueKeys(users, UserKeys) ==>
            forall i :: 0 <= i < |users| && UserLive(users[i]) && users[i].id == req.id
                        && (forall k :: 0 <= k < |users| && k != i ==>
                              users[k].username != req.username && users[k].email != req.email)
                        ==> r.1.Ok?
    ensures r.1.Ok? ==> |r.0| == |users|
                        && (exists i :: 0 <= i < |users| && UserLive(users[i]) && users[i].id == req.id
                              && r.0[i] == users[i].(username := req.username, email := req.email, updatedAt := now)
                              && r.1.value == UserToMsg(r.0[i])
                              && forall k :: 0 <= k < |users| && k != i ==> r.0[k] == users[k])
    ensures UniqueKeys(users, UserKeys) ==> UniqueKeys(r.0, UserKeys)
  {
    match First(users, UserId, IdIs(req.id))
    case None => (users, Err(RecordNotFound))
    case Some(i) =>
      var user := users[i].(username := req.username, email := req.email, updatedAt := now);
      match Save(users, UserKeys, i, user)
      case Err(e) => (users, Err(e))
      case Ok(rows) => (rows, Ok(UserToMsg(user)))
  }

  /** Of two identical registrations one after the other, the second fails and adds nothing. */
  lemma SecondCreateFails(users: seq<User>, req: CreateUserRequest, bcrypt: string -> Option<string>,
                          id: string, id2: string, now: Time, now2: Time)
    requires CreateUserSpec(users, req, bcrypt, id, now).1.Ok?
    ensures var once := CreateUserSpec(users, req, bcrypt, id, now).0;
            CreateUserSpec(once, req, bcrypt, id2, now2) == (once, Err(UniqueViolation))
  {
    var once := CreateUserSpec(users, req, bcrypt, id, now).0;
    assert once[|users|].username == req.username;
  }

  /** The status error GetUserByEmail reports for a failed lookup: NotFound exactly for a missing record. */
  function LookupStatus(e: Error): (s: Error)
    ensures s.Status?
    ensures s.code == NotFound <==> e == RecordNotFound
    ensures s.code == Internal <==> e != RecordNotFound
  {
    if e == RecordNotFound then Status(NotFound, "user not found") else Status(Internal, "failed to get user")
  }

  /**
   * GetUserByEmail: `fault` stands for a database failure other than
   * not-found. A missing live user maps to NotFound, a fault to Internal,
   * otherwise the id of the live user holding the email.
   */
  function GetUserByEmailSpec(users: seq<User>, email: string, fault: bool): (r: Result<GetUserByEmailResponse>)
    ensures fault ==> r == Err(Status(Internal, "failed to get user"))
    ensures !fault && (forall k :: 0 <= k < |users| ==> !(UserLive(users[k]) && users[k].email == email))
            ==> r == Err(Status(NotFound, "user not found"))
    ensures !fault && UniqueKeys(users, UserKeys) ==>
            forall k :: 0 <= k < |users| && UserLive(users[k]) && users[k].email == email ==>
              r == Ok(GetUserByEmailResponse(users[k].id))
  {
    if fault then Err(LookupStatus(DbFault))
    else
      match First(users, UserId, EmailIs(email))
      case None => Err(LookupStatus(RecordNotFound))
      case Some(i) =>
        SingleHolder(users, email, i);
        Ok(GetUserByEmailResponse(users[i].id))
  }

  /** Under the unique index, the user found by email is the only stored row with that email. */
  lemma SingleHolder(users: seq<User>, email: string, i: nat)
    requires i < |users| && users[i].email == email
    ensures UniqueKeys(users, UserKeys) ==> forall k :: 0 <= k < |users| && users[k].email == email ==> k == i
  {
    if UniqueKeys(users, UserKeys) {
      forall k | 0 <= k < |users| && users[k].email == email
        ensures k == i
      {
        UserKeysUnique(users, k, i);
      }
    }
  }

  /** A registered email keeps resolving to the same user id across any CreateUser call. */
  lemma LookupStableAcrossCreate(users: seq<User>, email: string, req: CreateUserRequest,
                                 bcrypt: string -> Option<string>, id: string, now: Time)
    requires UniqueKeys(users, UserKeys)
    requires GetUserByEmailSpec(users, email, false).Ok?
    ensures GetUserByEmailSpec(CreateUserSpec(users, req, bcrypt, id, now).0, email, false)
            == GetUserByEmailSpec(users, email, false)
  {
    var after := CreateUserSpec(users, req, bcrypt, id, now);
    if after.1.Ok? {
      var i :| 0 <= i < |users| && EmailIs(email)(users[i]);
      var x := after.0[|users|];
      assert after.0 == users + [x];
      assert x.email != email;
      FirstAppendUnselected(users, x, EmailIs(email));
    }
  }

  /** A soft-deleted user is no longer found, but its row stays stored. */
  lemma DeletedUserNotFound(users: seq<User>, id: string, now: Time)
    ensures |DeleteUsers(users, id, now)| == |users|
    ensures GetUserSpec(DeleteUsers(users, id, now), id) == Err(RecordNotFound)
  {
  }

  /** The tombstoned row still holds its username and email, so neither can be registered again. */
  lemma DeletedUserKeepsKeys(users: seq<User>, i: nat, now: Time, req: CreateUserRequest,
                             bcrypt: string -> Option<string>, id: string, now2: Time)
    requires i < |users|
    requires req.username == users[i].username || req.email == users[i].email
    ensures CreateUserSpec(DeleteUsers(users, users[i].id, now), req, bcrypt, id, now2).1.Err?
  {
    var after := DeleteUsers(users, users[i].id, now);
    assert after[i].username == users[i].username && after[i].email == users[i].email;
  }

  class Service {
    const db: Db

    constructor (db: Db)
      ensures this.db == db
    {
      this.db := db;
    }

    /** `bcrypt` is the hashing collaborator, `id` the generated xid, `now` the clock. */
    method CreateUser(req: CreateUserRequest, bcrypt: string -> Option<string>, id: string, now: Time)
      returns (r: Result<UserMsg>)
      requires db.Valid()
      modifies db
      ensures db.Valid() && db.emails == old(db.emails) && db.aliases == old(db.aliases)
      ensures (db.users, r) == CreateUserSpec(old(db.users), req, bcrypt, id, now)
    {
      var hashed := bcrypt(req.password);
      if hashed.None? {
        return Err(HashFailure);
      }
      var user := User(id, req.username, req.email, hashed.value, now, now, None);
      var err := db.CreateUser(user);
      if err.Some? {
        return Err(err.value);
      }
      r := Ok(UserToMsg(user));
    }

    method GetUser(req: GetUserRequest) returns (r: Result<UserMsg>)
      ensures r == GetUserSpec(db.users, req.id)
    {
      var found := First(db.users, UserId, IdIs(req.id));
      if found.None? {
        return Err(RecordNotFound);
      }
      var user := db.users[found.value];
      r := Ok(UserToMsg(user));
    }

    method UpdateUser(req: UpdateUserRequest, now: Time) returns (r: Result<UserMsg>)
      requires db.Valid()
      modifies db
      ensures db.Valid() && db.emails == old(db.emails) && db.aliases == old(db.aliases)
      ensures (db.users, r) == UpdateUserSpec(old(db.users), req, now)
    {
      var found := First(db.users, UserId, IdIs(req.id));
      if found.None? {
        return Err(RecordNotFound);
      }
      var user := db.users[found.value];
      user := user.(username := req.username);
      user := user.(email := req.email);
      user := user.(updatedAt := now);
      var err := db.SaveUser(found.value, user);
      if err.Some? {
        return Err(err.value);
      }
      r := Ok(UserToMsg(user));
    }

    method DeleteUser(req: DeleteUserRequest, now: Time) returns (r: Result<DeleteUserResponse>)
      requires db.Valid()
      modifies db
      ensures db.Valid() && db.emails == old(db.emails) && db.aliases == old(db.aliases)
      ensures db.users == DeleteUsers(old(db.users), req.id, now)
      ensures r == Ok(DeleteUserResponse(true))
    {
      db.DeleteUser(req.id, now);
      r := Ok(DeleteUserResponse(true));
    }

    /** `fault` is the database's answer when it fails for a reason other than a missing row. */
    method GetUserByEmail(req: GetUserByEmailRequest, fault: bool) returns (r: Result<GetUserByEmailResponse>)
      ensures r == GetUserByEmailSpec(db.users, req.email, fault)
    {
      var found: Result<nat>;
      if fault {
        found := Err(DbFault);
      } else {
        var i := First(db.users, UserId, EmailIs(req.email));
        found := if i.Some? then Ok(i.value) else Err(RecordNotFound);
      }
      if found.Err? {
        return Err(LookupStatus(found.error));
      }
      var user := db.users[found.value];
      r := Ok(GetUserByEmailResponse(user.id));
    }
  }
}

/**
 * The users table and its operations (lib/userService.js): the sign-in upsert
 * keyed by the Google account id, the two lookups and the last-login refresh.
 * A thrown error is an `Err` carrying the message the source builds.
 */
module UserService {

  import opened Store

  /** One row of the `users` table. */
  datatype User = User(
    googleId: string,
    email: string,
    name: Option<string>,
    imageUrl: Option<string>,
    lastLoginAt: Option<int>)

  /** The profile handed over at sign-in; any field may be missing. */
  datatype UserData = UserData(
    googleId: Option<string>,
    email: Option<string>,
    name: Option<string>,
    imageUrl: Option<string>)

  /** `{ user, isNewUser }`. */
  datatype Upserted = Upserted(user: User, isNewUser: bool)

  const IdAndEmailRequired: string := "Google ID and email are required"
  const FetchFailed: string := "Error fetching user: "
  const UpdateFailed: string := "Error updating user: "
  const CreateFailed: string := "Error creating user: "
  const LastLoginFailed: string := "Error updating last login: "

  predicate UniqueGoogleIds(users: seq<User>)
  {
    forall i, j :: 0 <= i < j < |users| ==> users[i].googleId != users[j].googleId
  }

  predicate HasGoogleId(users: seq<User>, googleId: string)
  {
    exists i :: 0 <= i < |users| && users[i].googleId == googleId
  }

  /** The rows matching `.eq("google_id", googleId)`. */
  function WithGoogleId(users: seq<User>, googleId: string): (m: seq<User>)
    ensures forall u :: u in m <==> u in users && u.googleId == googleId
    ensures |m| <= |users|
  {
    if users == [] then []
    else (if users[0].googleId == googleId then [users[0]] else []) + WithGoogleId(users[1..], googleId)
  }

  /** The rows matching `.eq("email", email)`. */
  function WithEmail(users: seq<User>, email: string): (m: seq<User>)
    ensures forall u :: u in m <==> u in users && u.email == email
  {
    if users == [] then []
    else (if users[0].email == email then [users[0]] else []) + WithEmail(users[1..], email)
  }

  /** With unique Google ids a lookup by Google id matches one row exactly when the id is present. */
  lemma {:induction false} GoogleIdLookup(users: seq<User>, googleId: string)
    requires UniqueGoogleIds(users)
    ensures |WithGoogleId(users, googleId)| == (if HasGoogleId(users, googleId) then 1 else 0)
  {
    if users != [] {
      var rest := users[1..];
      assert UniqueGoogleIds(rest) by {
        forall i, j | 0 <= i < j < |rest| ensures rest[i].googleId != rest[j].googleId {
          assert rest[i] == users[i + 1] && rest[j] == users[j + 1];
        }
      }
      GoogleIdLookup(rest, googleId);
      if users[0].googleId == googleId {
        assert !HasGoogleId(rest, googleId) by {
          forall k | 0 <= k < |rest| ensures rest[k].googleId != googleId {
            assert rest[k] == users[k + 1];
          }
        }
      } else {
        assert HasGoogleId(users, googleId) ==> HasGoogleId(rest, googleId) by {
          if HasGoogleId(users, googleId) {
            var k :| 0 <= k < |users| && users[k].googleId == googleId;
            assert rest[k - 1] == users[k];
          }
        }
        assert HasGoogleId(rest, googleId) ==> HasGoogleId(users, googleId) by {
          if HasGoogleId(rest, googleId) {
            var k :| 0 <= k < |rest| && rest[k].googleId == googleId;
            assert users[k + 1] == rest[k];
          }
        }
      }
    }
  }

  /** The row an existing user's sign-in writes: a falsy new name or image keeps the old one. */
  function Merged(existing: User, data: UserData, now: int): (u: User)
    ensures u.googleId == existing.googleId && u.email == existing.email
    ensures Truthy(data.name) ==> u.name == data.name
    ensures !Truthy(data.name) ==> u.name == existing.name
    ensures Truthy(data.imageUrl) ==> u.imageUrl == data.imageUrl
    ensures !Truthy(data.imageUrl) ==> u.imageUrl == existing.imageUrl
    ensures u.lastLoginAt == Some(now)
  {
    existing.(name := OrOption(data.name, existing.name),
              imageUrl := OrOption(data.imageUrl, existing.imageUrl),
              lastLoginAt := Some(now))
  }

  /** The row a first sign-in inserts. */
  function NewUser(googleId: string, email: string, data: UserData, now: int): User
  {
    User(googleId, email, data.name, data.imageUrl, Some(now))
  }

  /** The `users` table; Google ids stay unique because a row is only inserted for an absent id. */
  class UsersTable {
    var users: seq<User>

    ghost predicate Valid()
      reads this
    {
      UniqueGoogleIds(users)
    }

    constructor ()
      ensures Valid() && users == []
    {
      users := [];
    }

    /** `createOrUpdateUser(userData)`. */
    method CreateOrUpdateUser(data: UserData, now: int, lookupFault: Option<string>, writeFault: Option<string>)
      returns (res: Result<Upserted>)
      requires Valid()
      modifies this
      ensures Valid()
      ensures res.Err? ==> users == old(users)
      ensures !Truthy(data.googleId) || !Truthy(data.email) ==> res == Err(IdAndEmailRequired)
      ensures Truthy(data.googleId) && Truthy(data.email) && lookupFault.Some? ==>
                res == Err(FetchFailed + lookupFault.value)
      ensures Truthy(data.googleId) && Truthy(data.email) && lookupFault.None? ==>
                (res.Ok? <==> writeFault.None?)
      ensures Truthy(data.googleId) && Truthy(data.email) && lookupFault.None? && writeFault.Some? ==>
                res == Err((if HasGoogleId(old(users), data.googleId.value) then UpdateFailed else CreateFailed)
                           + writeFault.value)
      ensures res.Ok? ==> res.value.user.googleId == data.googleId.value && res.value.user.lastLoginAt == Some(now)
      ensures res.Ok? ==> (res.value.isNewUser <==> !HasGoogleId(old(users), data.googleId.value))
      ensures res.Ok? && res.value.isNewUser ==>
                && res.value.user == NewUser(data.googleId.value, data.email.value, data, now)
                && users == old(users) + [res.value.user]
      ensures res.Ok? && !res.value.isNewUser ==>
                && |users| == |old(users)|
                && res.value.user in users
                && forall i :: 0 <= i < |users| ==>
                     if old(users)[i].googleId == data.googleId.value
                     then users[i] == Merged(old(users)[i], data, now)
                     else users[i] == old(users)[i]
    {
      if !Truthy(data.googleId) || !Truthy(data.email) {
        return Err(IdAndEmailRequired);
      }
      var googleId, email := data.googleId.value, data.email.value;
      if lookupFault.Some? {
        return Err(FetchFailed + lookupFault.value);
      }
      GoogleIdLookup(users, googleId);
      var existing := Single(WithGoogleId(users, googleId));
      if existing.Some? {
        if writeFault.Some? {
          return Err(UpdateFailed + writeFault.value);
        }
        var updated := Merged(existing.value, data, now);
        var i := 0;
        var rows := users;
        while i < |rows|
          invariant 0 <= i <= |rows| && |rows| == |users|
          invariant forall k :: 0 <= k < i ==>
                      if users[k].googleId == googleId then rows[k] == Merged(users[k], data, now) else rows[k] == users[k]
          invariant forall k :: i <= k < |rows| ==> rows[k] == users[k]
        {
          if rows[i].googleId == googleId {
            rows := rows[i := Merged(rows[i], data, now)];
          }
          i := i + 1;
        }
        var k :| 0 <= k < |users| && users[k].googleId == googleId;
        assert users[k] == existing.value by {
          assert users[k] in WithGoogleId(users, googleId);
        }
        assert UniqueGoogleIds(rows) by {
          assert forall j :: 0 <= j < |rows| ==> rows[j].googleId == users[j].googleId;
        }
        users := rows;
        res := Ok(Upserted(updated, false));
      } else {
        if writeFault.Some? {
          return Err(CreateFailed + writeFault.value);
        }
        var created := NewUser(googleId, email, data, now);
        users := users + [created];
        res := Ok(Upserted(created, true));
      }
    }

    /** `getUserByGoogleId(googleId)`: the user, or null when there is none. */
    method GetUserByGoogleId(googleId: string, fault: Option<string>) returns (res: Result<Option<User>>)
      requires Valid()
      ensures fault.Some? ==> res == Err(FetchFailed + fault.value)
      ensures fault.None? ==> res.Ok? && (res.value.Some? <==> HasGoogleId(users, googleId))
      ensures res.Ok? && res.value.Some? ==> res.value.value in users && res.value.value.googleId == googleId
    {
      if fault.Some? {
        return Err(FetchFailed + fault.value);
      }
      GoogleIdLookup(users, googleId);
      res := Ok(Single(WithGoogleId(users, googleId)));
    }

    /**
     * `getUserByEmail(email)`: emails are not known to be unique, so `.single()`
     * yields a user only when exactly one row has the address.
     */
    method GetUserByEmail(email: string, fault: Option<string>) returns (res: Result<Option<User>>)
      ensures fault.Some? ==> res == Err(FetchFailed + fault.value)
      ensures fault.None? ==> res.Ok? && (res.value.Some? <==> |WithEmail(users, email)| == 1)
      ensures res.Ok? && res.value.Some? ==> res.value.value in users && res.value.value.email == email
    {
      if fault.Some? {
        return Err(FetchFailed + fault.value);
      }
      res := Ok(Single(WithEmail(users, email)));
    }

    /** `updateLastLogin(googleId)`: refreshes `last_login_at` of that user and nothing else. */
    method UpdateLastLogin(googleId: string, now: int, fault: Option<string>) returns (res: Result<User>)
      requires Valid()
      modifies this
      ensures Valid()
      ensures fault.Some? ==> res == Err(LastLoginFailed + fault.value) && users == old(users)
      ensures fault.None? && !HasGoogleId(old(users), googleId) ==>
                res == Err(LastLoginFailed + NoSingleRow) && users == old(users)
      ensures fault.None? && HasGoogleId(old(users), googleId) ==>
                && res.Ok? && res.value.googleId == googleId && res.value.lastLoginAt == Some(now)
                && |users| == |old(users)|
                && forall i :: 0 <= i < |users| ==>
                     if old(users)[i].googleId == googleId
                     then users[i] == old(users)[i].(lastLoginAt := Some(now))
                     else users[i] == old(users)[i]
    {
      if fault.Some? {
        return Err(LastLoginFailed + fault.value);
      }
      GoogleIdLookup(users, googleId);
      var found := Single(WithGoogleId(users, googleId));
      if found.None? {
        return Err(LastLoginFailed + NoSingleRow);
      }
      var k :| 0 <= k < |users| && users[k].googleId == googleId;
      assert users[k] == found.value by {
        assert users[k] in WithGoogleId(users, googleId);
      }
      users := users[k := users[k].(lastLoginAt := Some(now))];
      res := Ok(users[k]);
    }
  }
}

/**
 * `UserService.UpdateUser`: the stored user is read, the five fields a user
 * may edit are copied onto it from the submitted record, and the result is
 * written back.  The user repository is the `users` field of the service object.
 */
module UserService {
  import opened Wrappers
  import opened Uuids
  import opened Models

  const GetUserError := "failed to get user"
  const UpdateUserError := "failed to update user"

  /** The stored user with the editable fields taken from the submitted one. */
  function Merge(existing: User, submitted: User): (u: User)
    ensures u.name == submitted.name && u.profileImageUrl == submitted.profileImageUrl
    ensures u.language == submitted.language && u.notificationsEnabled == submitted.notificationsEnabled
    ensures u.locations == submitted.locations
    ensures u.id == existing.id && u.email == existing.email && u.passwordHash == existing.passwordHash
    ensures u.favoritePlantIds == existing.favoritePlantIds && u.ownedPlantIds == existing.ownedPlantIds
    ensures u.createdAt == existing.createdAt && u.updatedAt == existing.updatedAt
  {
    existing.(name := submitted.name, profileImageUrl := submitted.profileImageUrl, language := submitted.language,
              notificationsEnabled := submitted.notificationsEnabled, locations := submitted.locations)
  }

  /** The editable fields of a user. */
  predicate SameEditable(a: User, b: User)
  {
    a.name == b.name && a.profileImageUrl == b.profileImageUrl && a.language == b.language
    && a.notificationsEnabled == b.notificationsEnabled && a.locations == b.locations
  }

  /** Submitting the same edit twice changes nothing the second time. */
  lemma MergeIdempotent(existing: User, submitted: User)
    ensures Merge(Merge(existing, submitted), submitted) == Merge(existing, submitted)
  {
  }

  /** Of two edits, the later one wins. */
  lemma LaterEditWins(existing: User, first: User, second: User)
    ensures Merge(Merge(existing, first), second) == Merge(existing, second)
  {
  }

  /** An edit that repeats the stored editable fields leaves the user as stored. */
  lemma UnchangedEditIsNoOp(existing: User, submitted: User)
    ensures SameEditable(existing, submitted) <==> Merge(existing, submitted) == existing
  {
    if Merge(existing, submitted) == existing {
      assert Merge(existing, submitted).name == existing.name;
    }
  }

  /** Whatever else the submitted record says (its id, email, password, plants, times) is ignored. */
  lemma OnlyEditableFieldsMatter(existing: User, a: User, b: User)
    ensures SameEditable(a, b) <==> Merge(existing, a) == Merge(existing, b)
  {
    if Merge(existing, a) == Merge(existing, b) {
      assert Merge(existing, a).locations == Merge(existing, b).locations;
    }
  }

  class Service {
    var users: map<Uuid, User>

    constructor (users: map<Uuid, User>)
      ensures this.users == users
    {
      this.users := users;
    }

    /** Every user is stored under its own id. */
    predicate Keyed()
      reads this
    {
      forall k :: k in users ==> users[k].id == k
    }

    /**
     * `UpdateUser`: `fails` says whether the repository's write fails, and
     * `now` is the time the write stamps as `updated_at`. The user returned
     * is the merged record as it was read, with its old update time.
     */
    method UpdateUser(submitted: User, fails: bool, now: int) returns (r: Result<User, string>)
      modifies this`users
      ensures submitted.id !in old(users) ==> r == Err(GetUserError) && users == old(users)
      ensures submitted.id in old(users) && fails ==> r == Err(UpdateUserError) && users == old(users)
      ensures submitted.id in old(users) && !fails ==>
                r == Ok(Merge(old(users)[submitted.id], submitted))
                && users == old(users)[submitted.id := r.value.(updatedAt := now)]
      ensures old(Keyed()) ==> Keyed()
    {
      if submitted.id !in users {
        return Err(GetUserError);
      }
      var existing := users[submitted.id];
      existing := existing.(name := submitted.name);
      existing := existing.(profileImageUrl := submitted.profileImageUrl);
      existing := existing.(language := submitted.language);
      existing := existing.(notificationsEnabled := submitted.notificationsEnabled);
      existing := existing.(locations := submitted.locations);
      if fails {
        return Err(UpdateUserError);
      }
      users := users[submitted.id := existing.(updatedAt := now)];
      return Ok(existing);
    }
  }
}

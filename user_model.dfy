/**
 * The user collection as the registration controller sees it: `User.findOne`
 * with an `$or` of username and email, `User.create`, and `User.findById`
 * followed by `.select("-password -refreshToken")`. The collection is a
 * sequence of records in insertion order; ids are handed out by a counter.
 */
module UserModel {
  import opened Wrappers

  /** A stored user document. Fields absent from the request body stay absent (`None`). */
  datatype User = User(
    id: nat,
    fullName: Option<string>,
    username: string,
    email: Option<string>,
    password: Option<string>,
    avatar: string,
    coverImage: string,
    refreshToken: Option<string>)

  /** A user document without its secret fields. */
  datatype PublicUser = PublicUser(
    id: nat,
    fullName: Option<string>,
    username: string,
    email: Option<string>,
    avatar: string,
    coverImage: string)

  /** `.select("-password -refreshToken")`: every field except the two secrets. */
  function Public(u: User): (p: PublicUser)
  {
    PublicUser(u.id, u.fullName, u.username, u.email, u.avatar, u.coverImage)
  }

  /**
   * One branch of `{$or: [{username}, {email}]}`: a query field that is absent
   * matches nothing; a present one matches the stored value exactly (no case folding).
   */
  predicate Matches(u: User, username: Option<string>, email: Option<string>)
  {
    (username.Some? && u.username == username.value) || (email.Some? && u.email == email)
  }

  class UserStore {
    var users: seq<User>
    var nextId: nat

    /** Every stored id was handed out before `nextId`, in increasing order. */
    ghost predicate Valid()
      reads this
    {
      (forall i :: 0 <= i < |users| ==> users[i].id < nextId) &&
      (forall i, j :: 0 <= i < j < |users| ==> users[i].id < users[j].id)
    }

    constructor ()
      ensures Valid() && users == [] && nextId == 0
    {
      users := [];
      nextId := 0;
    }

    /** `User.findOne({$or: [{username}, {email}]})`: the first stored record that matches, if any. */
    method FindOne(username: Option<string>, email: Option<string>) returns (found: Option<User>)
      ensures found.None? <==> forall i :: 0 <= i < |users| ==> !Matches(users[i], username, email)
      ensures found.Some? ==> exists i :: 0 <= i < |users| && users[i] == found.value &&
                                Matches(users[i], username, email) &&
                                forall j :: 0 <= j < i ==> !Matches(users[j], username, email)
    {
      var i := 0;
      while i < |users|
        invariant 0 <= i <= |users|
        invariant forall j :: 0 <= j < i ==> !Matches(users[j], username, email)
      {
        if Matches(users[i], username, email) {
          return Some(users[i]);
        }
        i := i + 1;
      }
      return None;
    }

    /** `User.findById(id).select("-password -refreshToken")`. */
    method FindById(id: nat) returns (found: Option<PublicUser>)
      ensures found.None? <==> forall i :: 0 <= i < |users| ==> users[i].id != id
      ensures found.Some? ==> exists i :: 0 <= i < |users| && users[i].id == id && found.value == Public(users[i])
    {
      var i := 0;
      while i < |users|
        invariant 0 <= i <= |users|
        invariant forall j :: 0 <= j < i ==> users[j].id != id
      {
        if users[i].id == id {
          return Some(Public(users[i]));
        }
        i := i + 1;
      }
      return None;
    }

    /** `User.create({...})`: appends one record under a fresh id; a new user has no refresh token. */
    method Create(fullName: Option<string>, username: string, email: Option<string>, password: Option<string>,
                  avatar: string, coverImage: string) returns (user: User)
      requires Valid()
      modifies this
      ensures Valid()
      ensures user == User(old(nextId), fullName, username, email, password, avatar, coverImage, None)
      ensures users == old(users) + [user] && nextId == old(nextId) + 1
    {
      user := User(nextId, fullName, username, email, password, avatar, coverImage, None);
      users := users + [user];
      nextId := nextId + 1;
    }
  }
}

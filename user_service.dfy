// user-service/service.go, the in-memory branch (`useInMemory`): the `users`
// map keyed by the hex form of the user's ObjectID.  The ObjectID is kept
// abstract as that hex text; primitive.NewObjectID() is a parameter.

module UserService {
  import opened Text

  /** Hex form of the all-zero ObjectID, which IsZero() recognises. */
  const ZeroId := "000000000000000000000000"

  datatype User = User(
    id: string,
    username: string,
    password: string,
    gender: string,
    email: string,
    bio: string,
    avatarUrl: string)

  datatype Error = ErrNoDocuments | ErrUserExists

  datatype Result<T> = Found(value: T) | Failed(error: Error)

  /** Emails are compared after lower-casing both sides. */
  predicate SameEmail(a: string, b: string)
  {
    ToLower(a) == ToLower(b)
  }

  class UserStore {
    var users: map<string, User>

    /** Users sit under their id, and no two stored emails are equal ignoring case. */
    ghost predicate Valid()
      reads this
    {
      && (forall k :: k in users ==> users[k].id == k)
      && (forall k1, k2 :: k1 in users && k2 in users && k1 != k2 ==> !SameEmail(users[k1].email, users[k2].email))
    }

    constructor ()
      ensures Valid() && users == map[]
    {
      users := map[];
    }

    /** Whether some stored user has this email, ignoring case. */
    ghost predicate EmailTaken(email: string)
      reads this
    {
      exists k :: k in users && SameEmail(users[k].email, email)
    }

    method FindUserByEmail(email: string) returns (r: Result<User>)
      ensures r.Failed? <==> !EmailTaken(email)
      ensures r.Failed? ==> r.error == ErrNoDocuments
      ensures r.Found? ==> exists k :: k in users && users[k] == r.value && SameEmail(r.value.email, email)
      ensures r.Found? && Valid() ==> forall k :: k in users && SameEmail(users[k].email, email) ==> users[k] == r.value
    {
      var query := ToLower(email);
      var rest := users.Keys;
      while rest != {}
        invariant rest <= users.Keys
        invariant forall k :: k in users && k !in rest ==> ToLower(users[k].email) != query
        decreases rest
      {
        var k :| k in rest;
        if ToLower(users[k].email) == query {
          return Found(users[k]);
        }
        rest := rest - {k};
      }
      r := Failed(ErrNoDocuments);
    }

    method FindUserById(id: string) returns (r: Result<User>)
      ensures id in users ==> r == Found(users[id])
      ensures id !in users ==> r == Failed(ErrNoDocuments)
    {
      if id in users {
        return Found(users[id]);
      }
      r := Failed(ErrNoDocuments);
    }

    /** The returned user is `*user` after the call (its id filled in when it was zero). */
    method CreateUser(user: User, freshId: string) returns (r: Result<User>)
      requires Valid()
      modifies this
      ensures Valid()
      ensures old(EmailTaken(user.email)) ==> r == Failed(ErrUserExists) && users == old(users)
      ensures !old(EmailTaken(user.email)) ==>
        && r == Found(user.(id := if user.id == ZeroId then freshId else user.id))
        && users == old(users)[r.value.id := r.value]
    {
      var rest := users.Keys;
      while rest != {}
        invariant rest <= users.Keys
        invariant forall k :: k in users && k !in rest ==> ToLower(users[k].email) != ToLower(user.email)
        decreases rest
      {
        var k :| k in rest;
        if ToLower(users[k].email) == ToLower(user.email) {
          return Failed(ErrUserExists);
        }
        rest := rest - {k};
      }
      var u := user;
      if u.id == ZeroId {
        u := u.(id := freshId);
      }
      users := users[u.id := u];
      r := Found(u);
    }
  }
}

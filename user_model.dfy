/** The User schema: role enum, the normalised unique username and email,
    and the badges list that only ever grows. */
module UserModel {
  import opened Results
  import opened Text
  import opened CourseModel

  datatype Role = Learner | Admin

  /** `role`: absent gives "user", "user"/"admin" give that role, anything
      else fails the enum validator. */
  function ParseRole(s: Option<string>): (r: Result<Role>)
    ensures s.None? ==> r == Ok(Learner)
    ensures s.Some? ==> (r.Ok? <==> s.value in {"user", "admin"})
    ensures s.Some? && r.Ok? ==> (r.value == Admin <==> s.value == "admin")
  {
    match s
    case None => Ok(Learner)
    case Some(name) =>
      if name == "user" then Ok(Learner)
      else if name == "admin" then Ok(Admin)
      else Err(ValidationFailed("role"))
  }

  /** A badge's type: one of the three course tiers, or platinum. */
  datatype BadgeType = Tier(tier: BadgeTier) | Platinum

  datatype Badge = Badge(badgeId: string, badgeName: string, badgeType: BadgeType,
                         courseId: string, courseName: string, earnedAt: Time)

  datatype User = User(id: ObjectId, username: string, email: string,
                       password: string, role: Role, badges: seq<Badge>,
                       createdAt: Time)

  /** The stored email: trimmed and lower-cased. */
  function NormalizeEmail(s: string): (r: string)
    ensures IsTrimmed(r) && |r| <= |s|
    ensures |r| == |Trim(s)| && forall i :: 0 <= i < |r| ==> r[i] == LowerChar(Trim(s)[i])
    ensures forall i :: 0 <= i < |r| ==> !('A' <= r[i] <= 'Z')
  {
    Lower(Trim(s))
  }

  /** Normalising a stored email leaves it as it is. */
  lemma NormalizeEmailIdempotent(s: string)
    ensures NormalizeEmail(NormalizeEmail(s)) == NormalizeEmail(s)
  {
    var r := NormalizeEmail(s);
    assert IsTrimmed(r);
    assert Trim(r) == r;
    LowerKeepsLower(r);
  }

  lemma LowerKeepsLower(r: string)
    requires forall i :: 0 <= i < |r| ==> !('A' <= r[i] <= 'Z')
    ensures Lower(r) == r
  {
    var l := Lower(r);
    forall i | 0 <= i < |r|
      ensures l[i] == r[i]
    {
      assert l[i] == LowerChar(r[i]);
    }
  }

  /** A new User document: the three required strings must survive their
      setters non-empty; username is trimmed, email trimmed and lower-cased,
      role defaults to user and badges start empty. */
  function NewUser(id: ObjectId, username: string, email: string, password: string,
                   role: Option<string>, now: Time): (r: Result<User>)
    ensures r.Ok? <==> Trim(username) != "" && NormalizeEmail(email) != ""
                       && password != "" && ParseRole(role).Ok?
    ensures r.Ok? ==> r.value.badges == [] && r.value.id == id
                      && r.value.username == Trim(username)
                      && r.value.email == NormalizeEmail(email)
                      && (role.None? ==> r.value.role == Learner)
                      && (role.Some? ==> r.value.role == ParseRole(role).value)
                      && r.value.password == password && r.value.createdAt == now
  {
    if Trim(username) == "" then Err(ValidationFailed("username"))
    else if NormalizeEmail(email) == "" then Err(ValidationFailed("email"))
    else if password == "" then Err(ValidationFailed("password"))
    else match ParseRole(role)
      case Err(e) => Err(e)
      case Ok(rl) => Ok(User(id, Trim(username), NormalizeEmail(email), password, rl, [], now))
  }

  /** The users table keeps ids, usernames and emails unique. */
  ghost predicate UniqueAccounts(users: map<ObjectId, User>)
  {
    && (forall id :: id in users ==> users[id].id == id)
    && (forall a, b :: a in users && b in users && a != b ==>
          users[a].username != users[b].username && users[a].email != users[b].email)
  }

  /** Saving a new user: the unique indexes reject a taken id, username or email. */
  function InsertUser(users: map<ObjectId, User>, u: User): (r: Result<map<ObjectId, User>>)
    ensures r.Ok? <==> u.id !in users
                       && forall id :: id in users ==> users[id].username != u.username
                                                       && users[id].email != u.email
    ensures r.Ok? ==> r.value == users[u.id := u]
    ensures r.Ok? && UniqueAccounts(users) ==> UniqueAccounts(r.value)
  {
    if u.id in users then Err(DuplicateKey("_id"))
    else if exists id :: id in users && users[id].username == u.username then Err(DuplicateKey("username"))
    else if exists id :: id in users && users[id].email == u.email then Err(DuplicateKey("email"))
    else Ok(users[u.id := u])
  }

  /** `$push: { badges: badge }`, the only write the server makes to a badges
      list: the old list is kept as a prefix and nothing else changes. */
  function PushBadge(u: User, b: Badge): (r: User)
    ensures |r.badges| == |u.badges| + 1
    ensures r.badges[..|u.badges|] == u.badges && r.badges[|u.badges|..] == [b]
    ensures r.(badges := u.badges) == u
  {
    u.(badges := u.badges + [b])
  }
}

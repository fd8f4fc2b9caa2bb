/** The `/api/users` router: `POST /register`, `POST /login`, `GET /profile` and
    `PATCH /profile`, over the user collection. Password hashing and comparison are the user
    model's and are an opaque `matches` relation here; a token stands for `jwt.sign` over the
    user's id. The caller of the profile routes is the user the authentication middleware found. */
module UserRoutes {
  import opened Common
  import opened AnalysisModel

  /** A stored user. `password` is what the user model keeps for the password. */
  datatype User = User(id: ObjectId, email: string, password: string, name: Option<string>)

  /** `{ _id, email, name }`: what every route sends back about a user; it has no password. */
  datatype UserView = UserView(id: ObjectId, email: string, name: Option<string>)

  function View(u: User): (v: UserView)
    ensures v.id == u.id && v.email == u.email && v.name == u.name
  {
    UserView(u.id, u.email, u.name)
  }

  /** `jwt.sign({ userId }, secret, { expiresIn: '7d' })`: the token names the user it was
      signed for; the secret and the expiry are left to the signing library. */
  datatype Token = Token(userId: ObjectId)

  /** A parsed JSON request body with string values, as its keys and values in order. */
  type Fields = seq<(string, string)>

  /** `Object.keys(req.body)`. */
  function Keys(body: Fields): (r: seq<string>)
    ensures |r| == |body|
    ensures forall i :: 0 <= i < |body| ==> r[i] == body[i].0
  {
    seq(|body|, i requires 0 <= i < |body| => body[i].0)
  }

  /** `req.body[key]`: the value the last pair with that key gives. */
  function Lookup(body: Fields, key: string): (r: Option<string>)
    ensures r.None? <==> key !in Keys(body)
    ensures r.Some? ==> exists i :: 0 <= i < |body| && body[i] == (key, r.value)
    decreases |body|
  {
    if body == [] then None
    else if body[|body| - 1].0 == key then Some(body[|body| - 1].1)
    else
      var init := body[..|body| - 1];
      var r := Lookup(init, key);
      assert Keys(body) == Keys(init) + [body[|body| - 1].0];
      assert forall i :: 0 <= i < |init| ==> init[i] == body[i];
      r
  }

  /** A truthy field: present and not the empty string. */
  predicate Truthy(v: Option<string>) {
    v.Some? && v.value != ""
  }

  /** A failure of a database call, carrying the `details` the route reports: the message of a
      thrown `Error`, or `Unknown error` for anything else thrown. */
  datatype Thrown = ThrownError(message: string) | ThrownOther

  function Details(t: Thrown): (r: string)
    ensures t.ThrownError? ==> r == t.message
    ensures t.ThrownOther? ==> r == "Unknown error"
  {
    match t
    case ThrownError(m) => m
    case ThrownOther => "Unknown error"
  }

  /** What saving a user whose `_id` is already stored throws. */
  const DuplicateKeyError := ThrownError("E11000 duplicate key error")

  datatype Body =
    | Error(error: string)
    | ErrorDetails(error: string, details: string)
    | Auth(user: UserView, token: Token)
    | Profile(view: UserView)

  datatype Response = Response(status: nat, body: Body)

  const MissingFields := Response(400, Error("Email and password are required"))
  const InvalidCredentials := Response(401, Error("Invalid credentials"))

  predicate UsesUserId(users: seq<User>, id: ObjectId) {
    exists i :: 0 <= i < |users| && users[i].id == id
  }

  predicate EmailTaken(users: seq<User>, email: string) {
    exists i :: 0 <= i < |users| && users[i].email == email
  }

  /** No two stored users share an address. Nothing in the save enforces this: registration
      looks the address up first, so requests handled one after another keep it. */
  ghost predicate AddressesUnique(users: seq<User>) {
    forall i, j :: 0 <= i < j < |users| ==> users[i].email != users[j].email
  }

  /** `User.findOne({ email })`. */
  function FindByEmail(users: seq<User>, email: string): (r: Option<User>)
    ensures r.Some? ==> r.value in users && r.value.email == email
    ensures r.None? <==> !EmailTaken(users, email)
  {
    if users == [] then None
    else if users[0].email == email then Some(users[0])
    else
      var r := FindByEmail(users[1..], email);
      assert forall i :: 1 <= i < |users| ==> users[i] == users[1..][i - 1];
      r
  }

  /** The users collection. */
  class UserCollection {
    var users: seq<User>

    /** Ids are unique: the `_id` index refuses a duplicate. */
    ghost predicate Valid()
      reads this
    {
      forall i, j :: 0 <= i < j < |users| ==> users[i].id != users[j].id
    }

    constructor ()
      ensures Valid() && users == []
    {
      users := [];
    }

    /** `user.save()` of a new user; `fault` is a failure of the database. */
    method Insert(u: User, fault: Option<Thrown>) returns (err: Option<Thrown>)
      requires Valid()
      modifies this
      ensures Valid()
      ensures AddressesUnique(old(users)) && !EmailTaken(old(users), u.email) ==> AddressesUnique(users)
      ensures fault.Some? ==> err == fault
      ensures fault.None? && UsesUserId(old(users), u.id) ==> err == Some(DuplicateKeyError)
      ensures err.None? <==> fault.None? && !UsesUserId(old(users), u.id)
      ensures err.None? ==> users == old(users) + [u]
      ensures err.Some? ==> users == old(users)
    {
      if fault.Some? {
        err := fault;
      } else if UsesUserId(users, u.id) {
        err := Some(DuplicateKeyError);
      } else {
        users := users + [u];
        err := None;
      }
    }

    /** `user.save()` of a stored user whose name or password changed. */
    method Replace(k: nat, u: User, fault: bool) returns (ok: bool)
      requires Valid() && k < |users| && users[k].id == u.id && users[k].email == u.email
      modifies this
      ensures Valid()
      ensures AddressesUnique(old(users)) ==> AddressesUnique(users)
      ensures ok == !fault
      ensures ok ==> users == old(users)[k := u]
      ensures !ok ==> users == old(users)
    {
      if fault {
        ok := false;
      } else {
        users := users[k := u];
        ok := true;
      }
    }
  }

  // ----- POST /register -----

  /** `POST /register`. `newId` is the ObjectId the new document is given; `lookupFault` and
      `saveFault` stand for failures of the two database calls. */
  method Register(
    db: UserCollection, body: Fields, newId: ObjectId,
    lookupFault: Option<Thrown>, saveFault: Option<Thrown>)
    returns (resp: Response)
    requires db.Valid()
    modifies db
    ensures db.Valid()
    ensures AddressesUnique(old(db.users)) ==> AddressesUnique(db.users)
    ensures resp.status != 201 ==> db.users == old(db.users)
    ensures !Truthy(Lookup(body, "email")) || !Truthy(Lookup(body, "password")) ==> resp == MissingFields
    ensures Truthy(Lookup(body, "email")) && Truthy(Lookup(body, "password")) && lookupFault.Some? ==>
      resp == Response(400, ErrorDetails("Error creating user", Details(lookupFault.value)))
    ensures
      (Truthy(Lookup(body, "email")) && Truthy(Lookup(body, "password")) && lookupFault.None?
       && EmailTaken(old(db.users), Lookup(body, "email").value)) ==>
      resp == Response(400, Error("Email already exists"))
    ensures
      (Truthy(Lookup(body, "email")) && Truthy(Lookup(body, "password")) && lookupFault.None?
       && !EmailTaken(old(db.users), Lookup(body, "email").value)
       && (saveFault.Some? || UsesUserId(old(db.users), newId))) ==>
      resp == Response(400, ErrorDetails("Error creating user",
        Details(if saveFault.Some? then saveFault.value else DuplicateKeyError)))
    ensures resp.status == 201 <==>
      && Truthy(Lookup(body, "email")) && Truthy(Lookup(body, "password"))
      && lookupFault.None? && !EmailTaken(old(db.users), Lookup(body, "email").value)
      && saveFault.None? && !UsesUserId(old(db.users), newId)
    ensures resp.status == 201 ==>
      var u := User(newId, Lookup(body, "email").value, Lookup(body, "password").value, Lookup(body, "name"));
      db.users == old(db.users) + [u] && resp.body == Auth(View(u), Token(newId))
  {
    var email, password, name := Lookup(body, "email"), Lookup(body, "password"), Lookup(body, "name");
    if !Truthy(email) || !Truthy(password) {
      return MissingFields;
    }
    if lookupFault.Some? {
      return Response(400, ErrorDetails("Error creating user", Details(lookupFault.value)));
    }
    var existing := FindByEmail(db.users, email.value);
    if existing.Some? {
      return Response(400, Error("Email already exists"));
    }
    var u := User(newId, email.value, password.value, name);
    var err := db.Insert(u, saveFault);
    if err.Some? {
      return Response(400, ErrorDetails("Error creating user", Details(err.value)));
    }
    resp := Response(201, Auth(View(u), Token(newId)));
  }

  // ----- POST /login -----

  /** `POST /login`. `matches(stored, given)` is what `user.comparePassword(given)` resolves to;
      `fault` stands for a failure of the lookup and `compareFault` for `comparePassword`
      throwing. */
  function Login(
    users: seq<User>, body: Fields, matches: (string, string) -> bool,
    fault: Option<Thrown>, compareFault: Option<Thrown>): (r: Response)
    ensures !Truthy(Lookup(body, "email")) || !Truthy(Lookup(body, "password")) ==> r == MissingFields
    ensures fault.Some? && Truthy(Lookup(body, "email")) && Truthy(Lookup(body, "password")) ==>
      r == Response(400, ErrorDetails("Error logging in", Details(fault.value)))
    ensures
      (Truthy(Lookup(body, "email")) && Truthy(Lookup(body, "password")) && fault.None?
       && FindByEmail(users, Lookup(body, "email").value).Some? && compareFault.Some?) ==>
      r == Response(400, ErrorDetails("Error logging in", Details(compareFault.value)))
    ensures r.status == 200 <==>
      && Truthy(Lookup(body, "email")) && Truthy(Lookup(body, "password")) && fault.None?
      && FindByEmail(users, Lookup(body, "email").value).Some? && compareFault.None?
      && matches(FindByEmail(users, Lookup(body, "email").value).value.password, Lookup(body, "password").value)
    ensures r.status == 200 ==>
      var u := FindByEmail(users, Lookup(body, "email").value).value;
      r.body == Auth(View(u), Token(u.id))
    ensures r.status == 401 ==> r == InvalidCredentials
  {
    var email, password := Lookup(body, "email"), Lookup(body, "password");
    if !Truthy(email) || !Truthy(password) then MissingFields
    else if fault.Some? then Response(400, ErrorDetails("Error logging in", Details(fault.value)))
    else match FindByEmail(users, email.value)
      case None => InvalidCredentials
      case Some(u) =>
        if compareFault.Some? then Response(400, ErrorDetails("Error logging in", Details(compareFault.value)))
        else if !matches(u.password, password.value) then InvalidCredentials
        else Response(200, Auth(View(u), Token(u.id)))
  }

  /** Builds the body `{ email, password }`. */
  function Credentials(email: string, password: string): (body: Fields)
    ensures Lookup(body, "email") == Some(email) && Lookup(body, "password") == Some(password)
  {
    [("email", email), ("password", password)]
  }

  /** A login with an unknown address and a login with a known address but the wrong password
      get the same answer, so the answer does not tell which addresses are registered. */
  lemma LoginFailuresLookAlike(
    users: seq<User>, unknown: string, known: string, p1: string, p2: string,
    matches: (string, string) -> bool)
    requires unknown != "" && known != "" && p1 != "" && p2 != "" && !EmailTaken(users, unknown)
    requires FindByEmail(users, known).Some? && !matches(FindByEmail(users, known).value.password, p2)
    ensures Login(users, Credentials(unknown, p1), matches, None, None) == InvalidCredentials
    ensures Login(users, Credentials(known, p2), matches, None, None) == InvalidCredentials
  {
  }

  /** Once registered, a user can log in with the same address and password, provided the
      user model's comparison accepts the password it stored. */
  lemma LoginAfterRegister(users: seq<User>, u: User, matches: (string, string) -> bool)
    requires u.email != "" && u.password != "" && !EmailTaken(users, u.email)
    requires matches(u.password, u.password)
    ensures Login(users + [u], Credentials(u.email, u.password), matches, None, None) == Response(200, Auth(View(u), Token(u.id)))
  {
    FindByEmailAppend(users, u);
  }

  lemma {:induction false} FindByEmailAppend(users: seq<User>, u: User)
    requires !EmailTaken(users, u.email)
    ensures FindByEmail(users + [u], u.email) == Some(u)
  {
    if users == [] {
      assert users + [u] == [u];
    } else {
      assert (users + [u])[1..] == users[1..] + [u];
      assert users[0].email != u.email;
      assert !EmailTaken(users[1..], u.email) by {
        forall i | 0 <= i < |users[1..]| ensures users[1..][i].email != u.email {
          assert users[1..][i] == users[i + 1];
        }
      }
      FindByEmailAppend(users[1..], u);
    }
  }

  // ----- GET /profile -----

  /** `GET /profile`: the caller's id, address and name. */
  function ProfileResponse(u: User): (r: Response)
    ensures r.status == 200 && r.body.Profile?
    ensures r.body.view.id == u.id && r.body.view.email == u.email && r.body.view.name == u.name
  {
    Response(200, Profile(View(u)))
  }

  // ----- PATCH /profile -----

  const AllowedUpdates: seq<string> := ["name", "password"]

  /** `updates.every(update => allowedUpdates.includes(update))`. */
  function AllAllowed(keys: seq<string>): (r: bool)
    ensures r <==> forall i :: 0 <= i < |keys| ==> keys[i] in AllowedUpdates
    decreases |keys|
  {
    if keys == [] then true
    else
      var rest := AllAllowed(keys[1..]);
      assert forall i :: 1 <= i < |keys| ==> keys[i] == keys[1..][i - 1];
      keys[0] in AllowedUpdates && rest
  }

  /** The whitelist is a set inclusion: the order and repetition of the keys do not matter,
      and the empty body passes. */
  lemma AllAllowedIsInclusion(keys: seq<string>)
    ensures AllAllowed(keys) <==> (set i | 0 <= i < |keys| :: keys[i]) <= {"name", "password"}
  {
    var ks := set i | 0 <= i < |keys| :: keys[i];
    if AllAllowed(keys) {
      forall k | k in ks ensures k in {"name", "password"} {
        var i :| 0 <= i < |keys| && keys[i] == k;
        assert keys[i] in AllowedUpdates;
      }
    } else {
      var i :| 0 <= i < |keys| && keys[i] !in AllowedUpdates;
      assert keys[i] in ks;
    }
  }

  /** `user[key] = value` for one whitelisted key. */
  function Assign(u: User, key: string, value: string): (r: User)
    requires key in AllowedUpdates
    ensures r.id == u.id && r.email == u.email
  {
    if key == "name" then u.(name := Some(value)) else u.(password := value)
  }

  /** The user after the updates, applied in order. */
  function Overwrite(u: User, body: Fields): (r: User)
    requires AllAllowed(Keys(body))
    ensures r.id == u.id && r.email == u.email
    decreases |body|
  {
    if body == [] then u
    else
      var init := body[..|body| - 1];
      assert Keys(body) == Keys(init) + [body[|body| - 1].0];
      Assign(Overwrite(u, init), body[|body| - 1].0, body[|body| - 1].1)
  }

  /** Each whitelisted field ends up with the value the body gives it, and keeps its value when
      the body does not name it; nothing else changes. */
  lemma {:induction false} OverwriteFields(u: User, body: Fields)
    requires AllAllowed(Keys(body))
    ensures Overwrite(u, body).name == if Lookup(body, "name").Some? then Lookup(body, "name") else u.name
    ensures Overwrite(u, body).password == if Lookup(body, "password").Some? then Lookup(body, "password").value else u.password
    ensures Overwrite(u, body).id == u.id && Overwrite(u, body).email == u.email
    decreases |body|
  {
    if body != [] {
      var init := body[..|body| - 1];
      assert Keys(body) == Keys(init) + [body[|body| - 1].0];
      OverwriteFields(u, init);
    }
  }

  /** Sending the same update twice has the effect of sending it once. */
  lemma OverwriteIdempotent(u: User, body: Fields)
    requires AllAllowed(Keys(body))
    ensures Overwrite(Overwrite(u, body), body) == Overwrite(u, body)
  {
    OverwriteFields(u, body);
    OverwriteFields(Overwrite(u, body), body);
  }

  /** `updates.forEach(update => { req.user[update] = req.body[update]; })`. */
  method ApplyUpdates(u: User, body: Fields) returns (r: User)
    requires AllAllowed(Keys(body))
    ensures r == Overwrite(u, body)
  {
    r := u;
    var i := 0;
    while i < |body|
      invariant 0 <= i <= |body|
      invariant AllAllowed(Keys(body[..i]))
      invariant r == Overwrite(u, body[..i])
    {
      assert body[..i + 1][..i] == body[..i];
      assert Keys(body[..i + 1]) == Keys(body[..i]) + [body[i].0];
      r := Assign(r, body[i].0, body[i].1);
      i := i + 1;
    }
    assert body[..i] == body;
  }

  /** `PATCH /profile` for the user at position `k`, whom the authentication middleware found.
      `saveFault` stands for a failure of the save. */
  method PatchProfile(db: UserCollection, k: nat, body: Fields, saveFault: bool) returns (resp: Response)
    requires db.Valid() && k < |db.users|
    modifies db
    ensures db.Valid()
    ensures AddressesUnique(old(db.users)) ==> AddressesUnique(db.users)
    ensures !AllAllowed(Keys(body)) ==> resp == Response(400, Error("Invalid updates")) && db.users == old(db.users)
    ensures AllAllowed(Keys(body)) && saveFault ==>
      resp == Response(400, Error("Error updating profile")) && db.users == old(db.users)
    ensures resp.status == 200 <==> AllAllowed(Keys(body)) && !saveFault
    ensures resp.status == 200 ==>
      var u := Overwrite(old(db.users)[k], body);
      db.users == old(db.users)[k := u] && resp == ProfileResponse(u)
  {
    var keys := Keys(body);
    if !AllAllowed(keys) {
      return Response(400, Error("Invalid updates"));
    }
    var u := ApplyUpdates(db.users[k], body);
    var ok := db.Replace(k, u, saveFault);
    if !ok {
      return Response(400, Error("Error updating profile"));
    }
    resp := ProfileResponse(u);
  }
}

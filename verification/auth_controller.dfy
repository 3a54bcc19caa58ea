/** Registration and profile update. Password hashing is outside the model:
    the hash of the supplied password is passed in. */
module AuthController {
  import opened Wrappers
  import opened Domain

  /** The `location` of a registration body; either coordinate may be missing. */
  datatype LocationInput = LocationInput(latitude: Option<real>, longitude: Option<real>)

  /** JavaScript truthiness of an optional number: absent and zero are falsy. */
  predicate TruthyNumber(x: Option<real>) {
    x.Some? && x.value != 0.0
  }

  /** The stored point: `[longitude, latitude]` when both are truthy, otherwise
      the origin, so a zero coordinate also falls back to the origin. */
  function RegisterLocation(loc: Option<LocationInput>): (p: GeoPoint)
    ensures loc.Some? && TruthyNumber(loc.value.latitude) && TruthyNumber(loc.value.longitude) ==>
      p == GeoPoint(loc.value.longitude.value, loc.value.latitude.value, None)
    ensures !(loc.Some? && TruthyNumber(loc.value.latitude) && TruthyNumber(loc.value.longitude)) ==>
      p == GeoPoint(0.0, 0.0, None)
  {
    if loc.Some? && TruthyNumber(loc.value.latitude) && TruthyNumber(loc.value.longitude)
    then GeoPoint(loc.value.longitude.value, loc.value.latitude.value, None)
    else GeoPoint(0.0, 0.0, None)
  }

  /** A point on the equator or the prime meridian is stored as the origin. */
  lemma ZeroCoordinateFallsBack(lat: real, lng: real)
    requires lat == 0.0 || lng == 0.0
    ensures RegisterLocation(Some(LocationInput(Some(lat), Some(lng)))) == GeoPoint(0.0, 0.0, None)
  {
  }

  /** The body of a registration. */
  datatype Registration = Registration(
    name: string, email: string, password: Option<string>, role: Role, address: Option<string>,
    location: Option<LocationInput>)

  /** `POST /auth/register`: an email already on file answers 400 and creates
      nothing. A body without a password makes the hashing throw, which
      answers 500 and creates nothing. Otherwise the new user holds the body's
      fields, the hash of the password (`hashed`) and the normalised location;
      fields the body does not set are unset (no task, no counters, no rating,
      inactive). */
  function RegisterUser(existing: seq<User>, id: Id, body: Registration, hashed: string): (r: Result<User, HttpError>)
    ensures r == Failure(BadRequest) <==> exists u :: u in existing && u.email == body.email
    ensures (!exists u :: u in existing && u.email == body.email) && body.password.None? ==> r == Failure(ServerError)
    ensures r.Success? <==> (!exists u :: u in existing && u.email == body.email) && body.password.Some?
    ensures r.Failure? ==> r.error == BadRequest || r.error == ServerError
    ensures r.Success? ==>
      && r.value.id == id && r.value.name == body.name && r.value.email == body.email
      && r.value.role == body.role && r.value.address == body.address && r.value.password == hashed
      && r.value.location == RegisterLocation(body.location)
      && r.value.currentTask.None? && r.value.completedTasks == 0
  {
    if exists u :: u in existing && u.email == body.email then Failure(BadRequest)
    else if body.password.None? then Failure(ServerError)
    else Success(User(id, body.name, body.email, hashed, body.role, None, body.address,
                      RegisterLocation(body.location), None, false, None, 0, 0, None))
  }

  /** Registration keeps emails unique: after a successful registration the
      same email is refused. */
  lemma RegisterTwiceRefused(existing: seq<User>, id1: Id, id2: Id, body: Registration, other: Registration,
                             h1: string, h2: string)
    requires RegisterUser(existing, id1, body, h1).Success?
    requires other.email == body.email
    ensures RegisterUser(existing + [RegisterUser(existing, id1, body, h1).value], id2, other, h2) == Failure(BadRequest)
  {
    var u := RegisterUser(existing, id1, body, h1).value;
    assert u in existing + [u];
  }

  /** The body of a profile update. Capacity keys map to numbers. */
  datatype ProfileBody = ProfileBody(
    name: Option<string>, phone: Option<string>, address: Option<string>,
    capacity: Option<map<string, int>>, password: Option<string>)

  /** `PUT /auth/profile`. A missing user answers 404. Name, phone and address
      are replaced only by truthy values; a capacity object is merged over the
      stored one; the password changes only when one is supplied, to its hash.
      Nothing else changes. */
  function UpdateProfile(stored: Option<User>, body: ProfileBody, hashed: string): (r: Result<User, HttpError>)
    ensures stored.None? ==> r == Failure(NotFound)
    ensures stored.Some? ==> r.Success?
    ensures r.Success? ==>
      var u, v := stored.value, r.value;
      && v.name == (if Truthy(body.name) then body.name.value else u.name)
      && v.phone == (if Truthy(body.phone) then body.phone else u.phone)
      && v.address == (if Truthy(body.address) then body.address else u.address)
      && v.password == (if Truthy(body.password) then hashed else u.password)
      && v == u.(name := v.name, phone := v.phone, address := v.address, capacity := v.capacity, password := v.password)
    ensures r.Success? && body.capacity.Some? ==>
      var before := stored.value.capacity.GetOr(map[]);
      && r.value.capacity.Some?
      && r.value.capacity.value.Keys == before.Keys + body.capacity.value.Keys
      && (forall k :: k in body.capacity.value ==> r.value.capacity.value[k] == body.capacity.value[k])
      && (forall k :: k in before && k !in body.capacity.value ==> r.value.capacity.value[k] == before[k])
    ensures r.Success? && body.capacity.None? ==> r.value.capacity == stored.value.capacity
  {
    match stored
    case None => Failure(NotFound)
    case Some(u) =>
      var capacity := if body.capacity.Some? then Some(u.capacity.GetOr(map[]) + body.capacity.value) else u.capacity;
      Success(u.(
        name := if Truthy(body.name) then body.name.value else u.name,
        phone := if Truthy(body.phone) then body.phone else u.phone,
        address := if Truthy(body.address) then body.address else u.address,
        capacity := capacity,
        password := if Truthy(body.password) then hashed else u.password))
  }

  /** An update carrying no truthy field leaves the profile as it was.
      Repeating an update changes nothing more, except that a supplied
      password is hashed again with a fresh salt: only the stored hash may
      differ between the two results. */
  lemma UpdateProfileStable(u: User, body: ProfileBody, h1: string, h2: string)
    ensures (!Truthy(body.name) && !Truthy(body.phone) && !Truthy(body.address) && body.capacity.None?
             && !Truthy(body.password)) ==> UpdateProfile(Some(u), body, h1) == Success(u)
    ensures var once := UpdateProfile(Some(u), body, h1).value;
      var twice := UpdateProfile(Some(once), body, h2).value;
      && twice.(password := once.password) == once
      && (!Truthy(body.password) ==> twice == once)
      && (Truthy(body.password) ==> twice.password == h2)
  {
    var once := UpdateProfile(Some(u), body, h1).value;
    if body.capacity.Some? {
      var c := once.capacity.value + body.capacity.value;
      assert c == once.capacity.value;
    }
  }
}

/** The vocabulary shared by the server handlers: identifiers, roles, the
    donation record and its enumerations, users, notification requests,
    broadcast events and the HTTP errors the handlers answer with. */
module Domain {
  import opened Wrappers

  /** A document identifier (user id, donation id, notification id). Handlers
      compare `req.user.id` and `req.user.uid` with stored references; both are
      this one abstract identifier here. */
  type Id = string

  /** Milliseconds since the epoch. */
  type Millis = int

  datatype Role = Restaurant | Ngo | Volunteer | Admin

  function RoleName(r: Role): string {
    match r
    case Restaurant => "restaurant"
    case Ngo => "ngo"
    case Volunteer => "volunteer"
    case Admin => "admin"
  }

  /** Distinct roles have distinct names. */
  lemma RoleNameInjective(a: Role, b: Role)
    requires RoleName(a) == RoleName(b)
    ensures a == b
  {
  }

  /** Reads a stored role string; a string naming no role is `None`. */
  function ParseRole(s: string): (r: Option<Role>)
    ensures r.Some? ==> RoleName(r.value) == s
    ensures r.None? ==> forall k: Role :: RoleName(k) != s
  {
    if s == "restaurant" then Some(Restaurant)
    else if s == "ngo" then Some(Ngo)
    else if s == "volunteer" then Some(Volunteer)
    else if s == "admin" then Some(Admin)
    else None
  }

  /** Donation status. The first five are the schema's enumeration; `Assigned`
      and `Delivered` are requested by the volunteer-management handlers
      although the schema does not list them, so a save of either fails.
      `Unset` is a record whose status field was cleared by a status request
      that carried none. */
  datatype Status = Available | Claimed | PickedUp | Completed | Expired | Assigned | Delivered | Unset

  /** The statuses the enumeration validator lets through: its five names and
      an absent value. */
  predicate InSchemaEnum(s: Status) {
    !s.Assigned? && !s.Delivered?
  }

  /** The stored name of a status; an unset status has none. */
  function StatusName(s: Status): Option<string> {
    match s
    case Available => Some("available")
    case Claimed => Some("claimed")
    case PickedUp => Some("picked_up")
    case Completed => Some("completed")
    case Expired => Some("expired")
    case Assigned => Some("assigned")
    case Delivered => Some("delivered")
    case Unset => None
  }

  lemma StatusNameInjective(a: Status, b: Status)
    ensures StatusName(a) == StatusName(b) ==> a == b
  {
  }

  /** The status a name denotes, if any. */
  function ParseStatus(name: string): (r: Option<Status>)
    ensures r.Some? ==> StatusName(r.value) == Some(name)
    ensures r.None? ==> forall s :: StatusName(s) != Some(name)
  {
    if name == "available" then Some(Available)
    else if name == "claimed" then Some(Claimed)
    else if name == "picked_up" then Some(PickedUp)
    else if name == "completed" then Some(Completed)
    else if name == "expired" then Some(Expired)
    else if name == "assigned" then Some(Assigned)
    else if name == "delivered" then Some(Delivered)
    else None
  }

  datatype FoodType = Veg | NonVeg | Both | Cooked | Bakery

  function FoodTypeName(f: FoodType): string {
    match f
    case Veg => "veg"
    case NonVeg => "non-veg"
    case Both => "both"
    case Cooked => "cooked"
    case Bakery => "bakery"
  }

  /** The schema's `foodType` enumeration check. */
  function ParseFoodType(s: string): (r: Option<FoodType>)
    ensures r.Some? ==> FoodTypeName(r.value) == s
    ensures r.None? ==> forall f: FoodType :: FoodTypeName(f) != s
  {
    if s == "veg" then Some(Veg)
    else if s == "non-veg" then Some(NonVeg)
    else if s == "both" then Some(Both)
    else if s == "cooked" then Some(Cooked)
    else if s == "bakery" then Some(Bakery)
    else None
  }

  datatype Permission = Private | NgoOnly | AllVolunteers

  function PermissionName(p: Permission): string {
    match p
    case Private => "private"
    case NgoOnly => "ngo_only"
    case AllVolunteers => "all_volunteers"
  }

  datatype NoticeType = InfoNotice | SuccessNotice | WarningNotice | ErrorNotice

  /** One entry of `foodLocations`: both coordinates are present by construction. */
  datatype LatLng = LatLng(lat: real, lng: real)

  /** A GeoJSON point: `coordinates` is `[lng, lat]`, as stored. */
  datatype GeoPoint = GeoPoint(lng: real, lat: real, address: Option<string>)

  /** A location path of the donation schema as stored. Its `type` defaults to
      `Point` and its `coordinates` to an empty array, so the path exists on
      every stored donation, without coordinates when no point was given. */
  datatype GeoJson = GeoJson(coordinates: seq<real>, address: Option<string>)

  /** The stored form of an optional point. */
  function GeoJsonOf(p: Option<GeoPoint>): (g: GeoJson)
    ensures p.None? <==> |g.coordinates| == 0
    ensures p.Some? ==> g.coordinates == [p.value.lng, p.value.lat] && g.address == p.value.address
    ensures p.None? ==> g.address.None?
  {
    match p
    case None => GeoJson([], None)
    case Some(q) => GeoJson([q.lng, q.lat], q.address)
  }

  datatype Donation = Donation(
    id: Id,
    donor: Id,
    title: string,
    description: Option<string>,
    foodType: FoodType,
    quantity: string,
    expiryDate: Millis,
    location: GeoJson,
    dropLocation: GeoJson,
    foodLocations: seq<LatLng>,
    status: Status,
    claimedBy: Option<Id>,
    assignedVolunteer: Option<Id>,
    permissions: Permission,
    createdAt: Millis,
    updatedAt: Millis)

  /** The authenticated caller as the handlers see it. */
  datatype Actor = Actor(id: Id, role: Role, name: string)

  /** A stored user. The volunteer fields (`isActive`, `currentTask`, task
      counters, `rating`) and the NGO `capacity` map are present for every role.
      A `rating` of `None` is unset or NaN: the handlers read it only through
      `||`, where both are falsy. */
  datatype User = User(
    id: Id,
    name: string,
    email: string,
    password: string,
    role: Role,
    phone: Option<string>,
    address: Option<string>,
    location: GeoPoint,
    capacity: Option<map<string, int>>,
    isActive: bool,
    currentTask: Option<Id>,
    completedTasks: nat,
    failedTasks: nat,
    rating: Option<real>)

  /** The arguments of one `createNotification` call. The recipient may be
      absent when the handler passes an unset reference. */
  datatype Notice = Notice(
    recipient: Option<Id>,
    message: string,
    kind: NoticeType,
    relatedId: Option<Id>,
    onModel: Option<string>)

  /** A real-time broadcast, emitted to every connected client. */
  datatype Event =
    | NewDonation(donation: Donation)
    | DonationUpdated(donation: Donation)
    | VolunteerAssigned(donationId: Id, volunteerId: Id, ngoId: Id)
    | VolunteerLocation(donationId: Id, lat: real, lng: real)

  datatype HttpError = BadRequest | Unauthorized | Forbidden | NotFound | ServerError

  function Code(e: HttpError): (c: int)
    ensures 400 <= c < 600
  {
    match e
    case BadRequest => 400
    case Unauthorized => 401
    case Forbidden => 403
    case NotFound => 404
    case ServerError => 500
  }

  /** JavaScript truthiness of an optional string: absent and `""` are falsy. */
  predicate Truthy(s: Option<string>) {
    s.Some? && |s.value| > 0
  }

  /** The saved donation plus everything a step emits: stored notifications
      and broadcast events, in emission order. */
  datatype Effects = Effects(donation: Donation, notices: seq<Notice>, events: seq<Event>)

  /** Number of notices addressed to `who`: none exactly when no notice is
      addressed to them, all exactly when every notice is. */
  function NoticesTo(ns: seq<Notice>, who: Id): (n: nat)
    ensures n <= |ns|
    ensures n == 0 <==> forall i :: 0 <= i < |ns| ==> ns[i].recipient != Some(who)
    ensures n == |ns| <==> forall i :: 0 <= i < |ns| ==> ns[i].recipient == Some(who)
  {
    if |ns| == 0 then 0
    else
      var rest := NoticesTo(ns[1..], who);
      assert forall i :: 1 <= i < |ns| ==> ns[i] == ns[1..][i - 1];
      (if ns[0].recipient == Some(who) then 1 else 0) + rest
  }
}

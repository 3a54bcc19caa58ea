/** The volunteer's route map: which two points the route joins, how stored
    points are turned around for the map, when a stored point is replaced by a
    geocoded address, which broadcasts move the volunteer marker, and when the
    browser reports its position. */
module RouteMap {
  import opened Wrappers
  import Domain
  import DonationSchema

  /** One coordinate as the map reads it from an array: a number, or
      JavaScript's undefined when the array has no entry there. */
  datatype Coord = Num(x: real) | Undefined

  /** A two-element coordinate array. Stored points are `[lng, lat]`; map
      points are `[lat, lng]`. */
  datatype Pair = Pair(first: Coord, second: Coord)

  /** Entry `i` of a coordinate array, undefined past its end. */
  function At(c: seq<real>, i: nat): (r: Coord)
    ensures r.Num? <==> i < |c|
    ensures i < |c| ==> r.x == c[i]
  {
    if i < |c| then Num(c[i]) else Undefined
  }

  /** The first two entries of a stored coordinate array, `[c[0], c[1]]`. */
  function FirstTwo(c: seq<real>): Pair {
    Pair(At(c, 0), At(c, 1))
  }

  /** A populated user reference on the donation. Its `location` is
      `location?.coordinates`: `None` when either is missing. */
  datatype PartyRef = PartyRef(location: Option<seq<real>>, address: Option<string>, city: Option<string>)

  /** The donation handed to the map. Its `id` is read as `donation.id`; the
      donations the dashboard fetches are serialised store documents, which
      carry `_id` but no `id` (no virtuals are serialised), so there it is
      `None`, JavaScript's undefined, as is a cleared `status`. `location` and `dropLocation` are the
      `coordinates` arrays of the two location paths, `None` when the path or
      its array is missing. An array is truthy even when empty. */
  datatype MapDonation = MapDonation(
    id: Option<string>,
    status: Option<string>,
    location: Option<seq<real>>,
    dropLocation: Option<seq<real>>,
    donor: Option<PartyRef>,
    claimedBy: Option<PartyRef>)

  /** The donation as the map receives it from the store: both location paths
      are objects with a `coordinates` array. The references are given as
      they were populated. */
  function FromStored(d: Domain.Donation, donor: Option<PartyRef>, claimedBy: Option<PartyRef>): (m: MapDonation)
    ensures m.id.None? && m.status == Domain.StatusName(d.status)
    ensures m.location == Some(d.location.coordinates) && m.dropLocation == Some(d.dropLocation.coordinates)
  {
    MapDonation(None, Domain.StatusName(d.status), Some(d.location.coordinates), Some(d.dropLocation.coordinates),
                donor, claimedBy)
  }

  /** Turns a stored `[lng, lat]` into the map's `[lat, lng]`. */
  function Swap(p: Pair): (r: Pair)
    ensures r.first == p.second && r.second == p.first
  {
    Pair(p.second, p.first)
  }

  /** Turning a point around twice gives it back. */
  lemma SwapInvolutive(p: Pair)
    ensures Swap(Swap(p)) == p
  {
  }

  /** The pickup point, `[coordinates[1], coordinates[0]]`; `None` while the
      donation has no location or no coordinate array, when the map shows its
      loading text instead. An empty array passes that guard and gives an
      undefined point. */
  function Pickup(d: MapDonation): (r: Option<Pair>)
    ensures r.Some? <==> d.location.Some?
    ensures r.Some? ==> r.value == Swap(FirstTwo(d.location.value))
    ensures r.Some? ==> (r.value.first.Num? <==> |d.location.value| >= 2)
  {
    if d.location.Some? then Some(Swap(FirstTwo(d.location.value))) else None
  }

  /** The drop point: the donation's own drop coordinates when the array
      exists, whatever its length, else the claiming NGO's coordinates, else
      none. */
  function Drop(d: MapDonation): (r: Option<Pair>)
    ensures d.dropLocation.Some? ==> r == Some(Swap(FirstTwo(d.dropLocation.value)))
    ensures d.dropLocation.None? && d.claimedBy.Some? && d.claimedBy.value.location.Some? ==>
      r == Some(Swap(FirstTwo(d.claimedBy.value.location.value)))
    ensures r.None? <==> d.dropLocation.None? && (d.claimedBy.None? || d.claimedBy.value.location.None?)
  {
    if d.dropLocation.Some? then Some(Swap(FirstTwo(d.dropLocation.value)))
    else if d.claimedBy.Some? && d.claimedBy.value.location.Some? then
      Some(Swap(FirstTwo(d.claimedBy.value.location.value)))
    else None
  }

  /** A stored donation always carries a drop-location path, and the server
      never fills it, so the drop point is undefined in both coordinates and
      the claiming NGO's location is never used. A stored donation created
      without any location shows an undefined pickup point, not the loading
      text. */
  lemma StoredDropIsUndefined(id: Domain.Id, draft: DonationSchema.Draft, now: Domain.Millis,
                              donor: Option<PartyRef>, claimedBy: Option<PartyRef>)
    requires DonationSchema.Create(id, draft, now).Some?
    ensures var m := FromStored(DonationSchema.Create(id, draft, now).value, donor, claimedBy);
      && Drop(m) == Some(Pair(Undefined, Undefined))
      && (draft.location.None? ==> Pickup(m) == Some(Pair(Undefined, Undefined)))
  {
  }

  /** The routed leg: pickup to drop when the drop is known, otherwise volunteer
      to pickup when the volunteer's position is known, otherwise no route. */
  function Waypoints(pickup: Pair, drop: Option<Pair>, volunteer: Option<Pair>): (r: Option<(Pair, Pair)>)
    ensures drop.Some? ==> r == Some((pickup, drop.value))
    ensures drop.None? && volunteer.Some? ==> r == Some((volunteer.value, pickup))
    ensures r.None? <==> drop.None? && volunteer.None?
    ensures r.Some? ==> r.value.0 == pickup || r.value.1 == pickup
  {
    if drop.Some? then Some((pickup, drop.value))
    else if volunteer.Some? then Some((volunteer.value, pickup))
    else None
  }

  function Abs(x: real): real {
    if x < 0.0 then -x else x
  }

  /** `Math.abs(c) > 0.1`. `Math.abs` of undefined is NaN, and NaN compares
      false. */
  predicate FarFromZero(c: Coord) {
    c.Num? && Abs(c.x) > 0.1
  }

  /** A point more than 0.1 degrees from the origin in either component. */
  predicate Meaningful(p: Pair) {
    FarFromZero(p.first) || FarFromZero(p.second)
  }

  /** `resolveLocation`: a meaningful point is kept; otherwise, with an
      address, the first geocoding hit replaces it. No address, no hit or a
      failed lookup keeps the point. The lookup result is a parameter. */
  function ResolveLocation(p: Pair, address: Option<string>, geocoded: Option<Pair>): (r: Pair)
    ensures Meaningful(p) || !Truthy(address) || geocoded.None? ==> r == p
    ensures !Meaningful(p) && Truthy(address) && geocoded.Some? ==> r == geocoded.value
  {
    if Meaningful(p) then p
    else if !Truthy(address) then p
    else if geocoded.Some? then geocoded.value
    else p
  }

  predicate Truthy(s: Option<string>) {
    s.Some? && |s.value| > 0
  }

  /** Resolving twice with the same lookup gives what resolving once gave, as
      long as the hit itself is meaningful. */
  lemma ResolveStable(p: Pair, address: Option<string>, geocoded: Option<Pair>)
    requires geocoded.Some? ==> Meaningful(geocoded.value)
    ensures ResolveLocation(ResolveLocation(p, address, geocoded), address, geocoded)
            == ResolveLocation(p, address, geocoded)
  {
  }

  /** An undefined point is never meaningful, so with an address it is
      replaced by the lookup's hit: a donation stored without coordinates is
      placed by its donor's address. */
  lemma UndefinedPointIsGeocoded(address: string, hit: Pair)
    requires |address| > 0
    ensures ResolveLocation(Pair(Undefined, Undefined), Some(address), Some(hit)) == hit
  {
  }

  /** The address geocoded for the pickup: the donor's address, else the
      donor's city followed by ", India", else "India". */
  function PickupAddress(d: MapDonation): (a: string)
    ensures |a| > 0
    ensures d.donor.Some? && Truthy(d.donor.value.address) ==> a == d.donor.value.address.value
    ensures (d.donor.Some? && !Truthy(d.donor.value.address) && Truthy(d.donor.value.city))
            ==> a == d.donor.value.city.value + ", India"
    ensures (d.donor.None? || (!Truthy(d.donor.value.address) && !Truthy(d.donor.value.city))) ==> a == "India"
  {
    if d.donor.Some? && Truthy(d.donor.value.address) then d.donor.value.address.value
    else if d.donor.Some? && Truthy(d.donor.value.city) then d.donor.value.city.value + ", India"
    else "India"
  }

  /** `volunteer_location`: the marker moves only when the broadcast id is
      strictly equal to the shown donation's `id`; an undefined `id` equals no
      broadcast id. */
  function OnVolunteerLocation(position: Option<Pair>, shownId: Option<string>, donationId: string, lat: real, lng: real)
    : (r: Option<Pair>)
    ensures shownId == Some(donationId) ==> r == Some(Pair(Num(lat), Num(lng)))
    ensures shownId != Some(donationId) ==> r == position
  {
    if shownId == Some(donationId) then Some(Pair(Num(lat), Num(lng))) else position
  }

  /** With the `id` undefined, as on a fetched donation, no broadcast ever
      moves the marker. */
  lemma UndefinedIdIgnoresBroadcasts(position: Option<Pair>, donationId: string, lat: real, lng: real)
    ensures OnVolunteerLocation(position, None, donationId, lat, lng) == position
  {
  }

  /** The browser reports positions only while the donation is neither
      `completed` nor `available` and geolocation exists. The positions go to
      a path built from the same `id`, so for a fetched donation they are sent
      for the id "undefined". */
  predicate SendsPositions(status: Option<string>, hasGeolocation: bool) {
    status != Some("completed") && status != Some("available") && hasGeolocation
  }

  /** Positions are still sent for `delivered`, the other statuses and a
      cleared status. */
  lemma GpsGate(status: Option<string>)
    ensures SendsPositions(status, true) <==> status.None? || status.value !in {"completed", "available"}
    ensures !SendsPositions(status, false)
  {
  }
}

/** The donation handlers: create, the listing queries, claim and the
    volunteer's status update. Each request is one sequential step from the
    stored record to the saved record plus the notifications and broadcasts it
    emits; nothing conditions the write on the status read earlier, so two
    claims that read the same record can both pass the check. */
module DonationController {
  import opened Wrappers
  import opened Domain
  import opened Seqs
  import JsNumber
  import DonationSchema

  /** The store's save: when nothing changed the document is left as it was,
      otherwise `updatedAt` is stamped. */
  function Save(before: Donation, after: Donation, now: Millis): (r: Donation)
    ensures after == before ==> r == before
    ensures after != before ==> r == after.(updatedAt := now)
  {
    if after == before then before else after.(updatedAt := now)
  }

  function DonationNotice(recipient: Option<Id>, message: string, kind: NoticeType, d: Donation): Notice {
    Notice(recipient, message, kind, Some(d.id), Some("Donation"))
  }

  // ---------------------------------------------------------------- create

  /** The request body of a create. */
  datatype CreateBody = CreateBody(
    title: Option<string>,
    description: Option<string>,
    foodType: Option<string>,
    quantity: Option<string>,
    expiryDate: Option<Millis>,
    location: Option<GeoPoint>)

  /** Location of a new donation: the one in the body, else the creator's own. */
  function DefaultLocation(body: Option<GeoPoint>, userLocation: Option<GeoPoint>): (r: Option<GeoPoint>)
    ensures body.Some? ==> r == body
    ensures body.None? ==> r == userLocation
  {
    if body.Some? then body else userLocation
  }

  /** Creates a donation owned by the caller and broadcasts `new_donation`.
      A schema failure answers 500. */
  function CreateDonation(actor: Actor, userLocation: Option<GeoPoint>, body: CreateBody, id: Id, now: Millis)
    : (r: Result<Effects, HttpError>)
    ensures r.Failure? ==> r.error == ServerError
    ensures r.Success? ==>
      && r.value.donation.donor == actor.id
      && r.value.donation.status == Available
      && r.value.donation.location == GeoJsonOf(DefaultLocation(body.location, userLocation))
      && r.value.notices == []
      && r.value.events == [NewDonation(r.value.donation)]
  {
    var draft := DonationSchema.Draft(
      Some(actor.id), body.title, body.description, body.foodType,
      body.quantity, body.expiryDate, DefaultLocation(body.location, userLocation));
    match DonationSchema.Create(id, draft, now)
    case None => Failure(ServerError)
    case Some(d) => Success(Effects(d, [], [NewDonation(d)]))
  }

  // ---------------------------------------------------------------- listing

  /** The proximity part of a listing query: the raw coordinates and the
      maximum distance in metres (`None` when the radius is not a number). */
  datatype Near = Near(lat: string, lng: string, maxDistance: Option<int>)

  datatype ListQuery = ListQuery(status: string, near: Option<Near>)

  /** Builds the listing query from the query string: status defaults to
      `available`; a proximity filter is added only when both coordinates are
      given, with the radius in kilometres turned into metres (10 km by default). */
  function BuildListQuery(lat: Option<string>, lng: Option<string>, radius: Option<string>, status: Option<string>)
    : (q: ListQuery)
    ensures Truthy(status) ==> q.status == status.value
    ensures !Truthy(status) ==> q.status == "available"
    ensures q.near.Some? <==> Truthy(lat) && Truthy(lng)
    ensures q.near.Some? && !Truthy(radius) ==> q.near.value.maxDistance == Some(10000)
    ensures q.near.Some? && Truthy(radius) ==>
      q.near.value.maxDistance == (match JsNumber.ParseInt(radius.value)
                                   case Some(k) => Some(k * 1000)
                                   case None => None)
  {
    var st := if Truthy(status) then status.value else "available";
    if Truthy(lat) && Truthy(lng) then
      var distance :=
        if Truthy(radius) then
          match JsNumber.ParseInt(radius.value)
          case Some(k) => Some(k * 1000)
          case None => None
        else Some(10000);
      ListQuery(st, Some(Near(lat.value, lng.value, distance)))
    else ListQuery(st, None)
  }

  /** A radius written as a whole number of kilometres becomes that many thousand metres. */
  lemma RadiusInMetres(lat: string, lng: string, km: int)
    requires |lat| > 0 && |lng| > 0
    ensures BuildListQuery(Some(lat), Some(lng), Some(JsNumber.Show(km)), None).near
         == Some(Near(lat, lng, Some(km * 1000)))
  {
    JsNumber.ParseShow(km);
    assert |JsNumber.Show(km)| > 0;
  }

  /** The radius is read by the radix-less `parseInt`: `"0x5"` is five
      kilometres and `"0x"` is no number at all. */
  lemma HexRadius(lat: string, lng: string)
    requires |lat| > 0 && |lng| > 0
    ensures BuildListQuery(Some(lat), Some(lng), Some("0x5"), None).near == Some(Near(lat, lng, Some(5000)))
    ensures BuildListQuery(Some(lat), Some(lng), Some("0x"), None).near == Some(Near(lat, lng, None))
  {
    assert JsNumber.ParseInt("0x5") == Some(5) by {
      JsNumber.HexPrefix("5");
      assert "0x" + "5" == "0x5";
      assert JsNumber.DigitsValue("5", 16) == 5 by { assert "5"[..0] == []; }
    }
    JsNumber.HexWithoutDigits();
  }

  /** The status part of the listing: the donations whose status is the one
      queried. The proximity filter belongs to the store's geospatial index. */
  function ListByStatus(all: seq<Donation>, q: ListQuery): (r: seq<Donation>)
    ensures forall d :: d in r <==> d in all && StatusName(d.status) == Some(q.status)
    ensures forall d :: multiset(r)[d] == if StatusName(d.status) == Some(q.status) then multiset(all)[d] else 0
    ensures InOrderWithin(r, all)
  {
    var keep := (d: Donation) => StatusName(d.status) == Some(q.status);
    FilterCounts(all, keep);
    Filter(all, keep)
  }

  /** `/my`: the caller's own donations, newest first. */
  function MyDonations(all: seq<Donation>, actor: Actor): (r: seq<Donation>)
    ensures forall d :: d in r <==> d in all && d.donor == actor.id
    ensures forall d :: multiset(r)[d] == if d.donor == actor.id then multiset(all)[d] else 0
    ensures forall i, j :: 0 <= i < j < |r| ==> r[i].createdAt >= r[j].createdAt
  {
    AllNewestMatching(all, (d: Donation) => d.donor == actor.id, (d: Donation) => d.createdAt as real)
  }

  /** `/tasks`: donations assigned to the calling volunteer that are claimed or
      picked up, newest first. */
  function VolunteerTasks(all: seq<Donation>, actor: Actor): (r: seq<Donation>)
    ensures forall d :: d in r <==>
      d in all && d.assignedVolunteer == Some(actor.id) && (d.status == Claimed || d.status == PickedUp)
    ensures forall d :: multiset(r)[d] ==
                        if d.assignedVolunteer == Some(actor.id) && (d.status == Claimed || d.status == PickedUp)
                        then multiset(all)[d] else 0
    ensures forall i, j :: 0 <= i < j < |r| ==> r[i].createdAt >= r[j].createdAt
  {
    AllNewestMatching(
      all,
      (d: Donation) => d.assignedVolunteer == Some(actor.id) && (d.status == Claimed || d.status == PickedUp),
      (d: Donation) => d.createdAt as real)
  }

  /** `/claimed`: donations the calling NGO claimed, in any status but expired,
      most recently updated first. */
  function ClaimedDonations(all: seq<Donation>, actor: Actor): (r: seq<Donation>)
    ensures forall d :: d in r <==> d in all && d.claimedBy == Some(actor.id) && d.status != Expired
    ensures forall d :: multiset(r)[d] == if d.claimedBy == Some(actor.id) && d.status != Expired then multiset(all)[d] else 0
    ensures forall i, j :: 0 <= i < j < |r| ==> r[i].updatedAt >= r[j].updatedAt
  {
    AllNewestMatching(
      all,
      (d: Donation) => d.claimedBy == Some(actor.id) && d.status != Expired,
      (d: Donation) => d.updatedAt as real)
  }

  /** A created donation is listed by the default listing and by its
      donor's `/my`, and anyone may claim it. */
  lemma CreatedIsListed(actor: Actor, userLocation: Option<GeoPoint>, body: CreateBody, id: Id, now: Millis,
                        all: seq<Donation>, claimer: Actor, later: Millis)
    requires CreateDonation(actor, userLocation, body, id, now).Success?
    ensures var d := CreateDonation(actor, userLocation, body, id, now).value.donation;
      && d in ListByStatus(all + [d], BuildListQuery(None, None, None, None))
      && d in MyDonations(all + [d], actor)
      && Claim(Some(d), claimer, later).Success?
  {
    var d := CreateDonation(actor, userLocation, body, id, now).value.donation;
    assert d in all + [d];
  }

  // ---------------------------------------------------------------- claim

  function ClaimMessage(d: Donation, actor: Actor): string {
    "Your donation \"" + d.title + "\" has been claimed by " + actor.name + "."
  }

  /** The fields a claim writes, by the caller's role. Any other role writes nothing. */
  function ClaimFields(d: Donation, actor: Actor): Donation {
    match actor.role
    case Ngo => d.(status := Claimed, claimedBy := Some(actor.id))
    case Volunteer => d.(status := Claimed, assignedVolunteer := Some(actor.id))
    case _ => d
  }

  /** `PUT /:id/claim`. A missing donation is 404; one whose status, as loaded,
      is not `available` is 400 with nothing saved, broadcast or notified; a
      cleared status loads as `available`, so that record is claimable. Otherwise
      the caller's role decides the fields written, the record is saved, one
      `donation_updated` is broadcast and the donor gets one success notification. */
  function Claim(stored: Option<Donation>, actor: Actor, now: Millis): (r: Result<Effects, HttpError>)
    ensures stored.None? ==> r == Failure(NotFound)
    ensures stored.Some? && stored.value.status != Available && stored.value.status != Unset ==> r == Failure(BadRequest)
    ensures r.Success? <==> stored.Some? && (stored.value.status == Available || stored.value.status == Unset)
    ensures r.Success? && actor.role == Ngo ==>
      r.value.donation == stored.value.(status := Claimed, claimedBy := Some(actor.id), updatedAt := now)
    ensures r.Success? && actor.role == Volunteer ==>
      r.value.donation == stored.value.(status := Claimed, assignedVolunteer := Some(actor.id), updatedAt := now)
    ensures r.Success? && actor.role != Ngo && actor.role != Volunteer ==>
      r.value.donation == stored.value.(status := Available)
    ensures r.Success? ==>
      && r.value.events == [DonationUpdated(r.value.donation)]
      && |r.value.notices| == 1
      && r.value.notices[0].recipient == Some(stored.value.donor)
      && r.value.notices[0].kind == SuccessNotice
  {
    match stored
    case None => Failure(NotFound)
    case Some(s) =>
      var d := DonationSchema.Loaded(s);
      if d.status != Available then Failure(BadRequest)
      else
        var saved := Save(d, ClaimFields(d, actor), now);
        Success(Effects(
          saved,
          [DonationNotice(Some(saved.donor), ClaimMessage(saved, actor), SuccessNotice, saved)],
          [DonationUpdated(saved)]))
  }

  /** After an NGO or volunteer claim, any further claim of the saved record is
      refused: the status check is what keeps a record from being claimed twice
      by requests that run one after another. */
  lemma ClaimNotRepeatable(d: Donation, a: Actor, b: Actor, now: Millis, later: Millis)
    requires a.role == Ngo || a.role == Volunteer
    requires Claim(Some(d), a, now).Success?
    ensures Claim(Some(Claim(Some(d), a, now).value.donation), b, later) == Failure(BadRequest)
  {
  }

  /** A status request without a status clears the field, and the cleared
      record loads as `available`, so anyone may claim it again. */
  lemma ClearedStatusClaimable(d: Donation, volunteer: Actor, claimer: Actor, now: Millis, later: Millis)
    requires d.assignedVolunteer == Some(volunteer.id)
    ensures UpdateTaskStatus(Some(d), volunteer, None, now).Success?
    ensures Claim(Some(UpdateTaskStatus(Some(d), volunteer, None, now).value.donation), claimer, later).Success?
  {
  }

  /** A claim by an admin saves the record unchanged, so it stays claimable,
      yet it is still broadcast and still notifies the donor. */
  lemma AdminClaimLeavesAvailable(d: Donation, a: Actor, now: Millis)
    requires a.role == Admin && d.status == Available
    ensures Claim(Some(d), a, now).Success?
    ensures Claim(Some(d), a, now).value.donation == d
    ensures NoticesTo(Claim(Some(d), a, now).value.notices, d.donor) == 1
  {
  }

  // ---------------------------------------------------------------- status

  function ActionWord(s: Status): string {
    if s == PickedUp then "picked up" else "delivered"
  }

  function StatusNotices(d: Donation, actor: Actor, status: Status): (ns: seq<Notice>)
    ensures |ns| >= 1 && ns[0].recipient == Some(d.donor)
    ensures |ns| == 2 <==> d.claimedBy.Some? && d.claimedBy.value != actor.id
    ensures |ns| <= 2
    ensures |ns| == 2 ==> ns[1].recipient == d.claimedBy
    ensures forall i :: 0 <= i < |ns| ==> ns[i].kind == InfoNotice && ns[i].relatedId == Some(d.id)
  {
    var donorNotice := DonationNotice(
      Some(d.donor), "Your donation \"" + d.title + "\" has been " + ActionWord(status) + ".", InfoNotice, d);
    if d.claimedBy.Some? && d.claimedBy.value != actor.id then
      [donorNotice,
       DonationNotice(d.claimedBy, "Donation \"" + d.title + "\" has been " + ActionWord(status) + " by " + actor.name + ".", InfoNotice, d)]
    else [donorNotice]
  }

  /** The status a request body names: a body without one names the cleared
      field, one of the seven names is that status, other text names none. */
  function BodyStatus(body: Option<string>): (r: Option<Status>)
    ensures body.None? ==> r == Some(Unset)
    ensures r.Some? ==> StatusName(r.value) == body
    ensures r.None? <==> body.Some? && forall s :: StatusName(s) != body
  {
    match body
    case None => Some(Unset)
    case Some(name) => ParseStatus(name)
  }

  /** Every status, sent by its name or, for `Unset`, sent as no status at
      all, is the status the body names. */
  lemma BodyStatusRoundTrip(st: Status)
    ensures BodyStatus(StatusName(st)) == Some(st)
  {
    if st != Unset {
      StatusNameInjective(ParseStatus(StatusName(st).value).value, st);
    }
  }

  /** The status a request writes, as the save lets it through: the schema's
      enumeration validator accepts its five names and an absent value (which
      clears the field); `assigned`, `delivered` and any other text fail
      validation at the save, which answers 500. */
  function RequestedStatus(body: Option<string>): (r: Result<Status, HttpError>)
    ensures body.None? ==> r == Success(Unset)
    ensures r.Success? <==>
      body.None? || body.value in {"available", "claimed", "picked_up", "completed", "expired"}
    ensures r.Success? ==> StatusName(r.value) == body && InSchemaEnum(r.value)
    ensures body == Some("assigned") || body == Some("delivered") ==> r == Failure(ServerError)
    ensures r.Failure? ==> r.error == ServerError
  {
    match BodyStatus(body)
    case None => Failure(ServerError)
    case Some(st) => if InSchemaEnum(st) then Success(st) else Failure(ServerError)
  }

  /** A status inside the enumeration, sent by its name or, for `Unset`, sent
      as no status at all, is the status the save writes; `assigned` and
      `delivered` are refused. */
  lemma RequestedRoundTrip(st: Status)
    ensures InSchemaEnum(st) ==> RequestedStatus(StatusName(st)) == Success(st)
    ensures !InSchemaEnum(st) ==> RequestedStatus(StatusName(st)) == Failure(ServerError)
  {
    BodyStatusRoundTrip(st);
  }

  /** `PUT /:id/status`. Only the assigned volunteer may update; the requested
      status is written whatever the current one is (there is no transition
      check). A record with no assigned volunteer makes the ownership comparison
      throw, which answers 500; so does a status the save refuses. A request
      without a status clears the field and is reported as a delivery, since
      every status but `picked_up` is worded "delivered". */
  function UpdateTaskStatus(stored: Option<Donation>, actor: Actor, status: Option<string>, now: Millis)
    : (r: Result<Effects, HttpError>)
    ensures stored.None? ==> r == Failure(NotFound)
    ensures stored.Some? && stored.value.assignedVolunteer.None? ==> r == Failure(ServerError)
    ensures stored.Some? && stored.value.assignedVolunteer.Some? && stored.value.assignedVolunteer.value != actor.id
            ==> r == Failure(Forbidden)
    ensures stored.Some? && stored.value.assignedVolunteer == Some(actor.id) && RequestedStatus(status).Failure?
            ==> r == Failure(ServerError)
    ensures stored.Some? && (status == Some("assigned") || status == Some("delivered")) ==> r.Failure?
    ensures r.Success? <==>
      stored.Some? && stored.value.assignedVolunteer == Some(actor.id) && RequestedStatus(status).Success?
    ensures r.Success? ==>
      && r.value.donation.status == RequestedStatus(status).value
      && InSchemaEnum(r.value.donation.status)
      && StatusName(r.value.donation.status) == status
      && r.value.donation.(status := stored.value.status, updatedAt := stored.value.updatedAt) == stored.value
      && r.value.events == [DonationUpdated(r.value.donation)]
      && NoticesTo(r.value.notices, stored.value.donor) >= 1
      && r.value.notices[0].recipient == Some(stored.value.donor)
      && (|r.value.notices| == 2 <==> stored.value.claimedBy.Some? && stored.value.claimedBy.value != actor.id)
  {
    match stored
    case None => Failure(NotFound)
    case Some(d) =>
      if d.assignedVolunteer.None? then Failure(ServerError)
      else if d.assignedVolunteer.value != actor.id then Failure(Forbidden)
      else
        match RequestedStatus(status)
        case Failure(e) => Failure(e)
        case Success(st) =>
          var saved := Save(d, d.(status := st), now);
          Success(Effects(saved, StatusNotices(saved, actor, st), [DonationUpdated(saved)]))
  }

  /** A status request without a status clears the field, succeeds, and tells
      the donor the donation was delivered. */
  lemma MissingStatusReadsDelivered(d: Donation, actor: Actor, now: Millis)
    requires d.assignedVolunteer == Some(actor.id)
    ensures var r := UpdateTaskStatus(Some(d), actor, None, now);
      && r.Success?
      && r.value.donation.status == Unset
      && r.value.notices[0].message == "Your donation \"" + d.title + "\" has been delivered."
  {
  }

  /** The assigned volunteer can move a record to any status of the
      enumeration from any status, including back to `available` or from
      `completed`; `assigned` and `delivered` are refused at the save. */
  lemma AnyTargetAccepted(d: Donation, actor: Actor, target: Status, now: Millis)
    requires d.assignedVolunteer == Some(actor.id)
    ensures UpdateTaskStatus(Some(d), actor, StatusName(target), now).Success? <==> InSchemaEnum(target)
    ensures InSchemaEnum(target) ==> UpdateTaskStatus(Some(d), actor, StatusName(target), now).value.donation.status == target
    ensures !InSchemaEnum(target) ==> UpdateTaskStatus(Some(d), actor, StatusName(target), now) == Failure(ServerError)
  {
    RequestedRoundTrip(target);
  }
}

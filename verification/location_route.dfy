/** The live-location push: the assigned volunteer replaces the donation's
    location trail with their latest position and the position is broadcast. */
module LocationRoute {
  import opened Wrappers
  import opened Domain

  /** `PUT /donations/:id/location`. A missing donation answers 404; a donation
      with no assignee makes the ownership comparison throw (500); any other
      caller than the assignee gets 403. The body's `lat` and `lng` are taken
      unchecked: when either is absent the trail entry fails the schema's
      required check at the save (500). On success the trail becomes the one
      reported point, the save time is stamped, nothing else of the record changes,
      and `volunteer_location` is broadcast after the save. */
  function PushLocation(stored: Option<Donation>, actor: Actor, lat: Option<real>, lng: Option<real>, now: Millis)
    : (r: Result<Effects, HttpError>)
    ensures stored.None? ==> r == Failure(NotFound)
    ensures stored.Some? && stored.value.assignedVolunteer.None? ==> r == Failure(ServerError)
    ensures stored.Some? && stored.value.assignedVolunteer.Some? && stored.value.assignedVolunteer.value != actor.id
            ==> r == Failure(Forbidden)
    ensures stored.Some? && stored.value.assignedVolunteer == Some(actor.id) && (lat.None? || lng.None?)
            ==> r == Failure(ServerError)
    ensures r.Success? <==> stored.Some? && stored.value.assignedVolunteer == Some(actor.id) && lat.Some? && lng.Some?
    ensures r.Success? ==>
      && r.value.donation.foodLocations == [LatLng(lat.value, lng.value)]
      && r.value.donation.(foodLocations := stored.value.foodLocations, updatedAt := stored.value.updatedAt)
         == stored.value
      && r.value.donation.updatedAt == now
      && r.value.notices == []
      && r.value.events == [VolunteerLocation(stored.value.id, lat.value, lng.value)]
  {
    match stored
    case None => Failure(NotFound)
    case Some(d) =>
      if d.assignedVolunteer.None? then Failure(ServerError)
      else if d.assignedVolunteer.value != actor.id then Failure(Forbidden)
      else if lat.None? || lng.None? then Failure(ServerError)
      else
        var p := LatLng(lat.value, lng.value);
        // The assignment builds fresh subdocuments, so the path is always
        // modified and the save always stamps the time.
        Success(Effects(d.(foodLocations := [p], updatedAt := now), [], [VolunteerLocation(d.id, p.lat, p.lng)]))
  }

  /** Last write wins: two pushes leave only the second point, and nothing
      besides the trail and the save time differs from the stored record. */
  lemma LastPushWins(d: Donation, actor: Actor, lat1: real, lng1: real, lat2: real, lng2: real, t1: Millis, t2: Millis)
    requires d.assignedVolunteer == Some(actor.id)
    ensures var first := PushLocation(Some(d), actor, Some(lat1), Some(lng1), t1).value.donation;
      var second := PushLocation(Some(first), actor, Some(lat2), Some(lng2), t2);
      && second.Success?
      && second.value.donation.foodLocations == [LatLng(lat2, lng2)]
      && second.value.donation.(foodLocations := d.foodLocations, updatedAt := d.updatedAt) == d
  {
  }
}

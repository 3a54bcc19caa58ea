/** The donation schema: required fields, enumerations and defaults applied
    when a donation document is created. */
module DonationSchema {
  import opened Wrappers
  import opened Domain

  /** The fields handed to the store when a donation is created, before the
      schema checks them. */
  datatype Draft = Draft(
    donor: Option<Id>,
    title: Option<string>,
    description: Option<string>,
    foodType: Option<string>,
    quantity: Option<string>,
    expiryDate: Option<Millis>,
    location: Option<GeoPoint>)

  /** The schema's required-field and enumeration checks. A required string
      must be present and non-empty; `foodType` must name one of the five kinds. */
  predicate Valid(d: Draft) {
    && d.donor.Some?
    && Truthy(d.title)
    && d.foodType.Some? && ParseFoodType(d.foodType.value).Some?
    && Truthy(d.quantity)
    && d.expiryDate.Some?
  }

  /** Validates a draft and fills in the schema defaults: status `available`,
      permissions `private`, no food locations, no claim, no volunteer, and
      both location paths present, with an empty coordinate array where no
      point was given (the drop location is never given). There is no check
      that the expiry lies in the future. `None` is a validation failure. */
  function Create(id: Id, d: Draft, now: Millis): (r: Option<Donation>)
    ensures r.Some? <==> Valid(d)
    ensures r.Some? ==>
      && r.value.id == id
      && Some(r.value.donor) == d.donor
      && Some(r.value.title) == d.title
      && Some(FoodTypeName(r.value.foodType)) == d.foodType
      && Some(r.value.quantity) == d.quantity
      && Some(r.value.expiryDate) == d.expiryDate
      && r.value.description == d.description
      && r.value.location == GeoJsonOf(d.location)
      && r.value.status == Available
      && r.value.permissions == Private
      && r.value.foodLocations == []
      && r.value.claimedBy.None? && r.value.assignedVolunteer.None?
      && r.value.dropLocation == GeoJson([], None)
      && r.value.createdAt == now && r.value.updatedAt == now
  {
    if !Valid(d) then None
    else
      Some(Donation(
        id, d.donor.value, d.title.value, d.description,
        ParseFoodType(d.foodType.value).value, d.quantity.value, d.expiryDate.value,
        GeoJsonOf(d.location), GeoJson([], None), [], Available, None, None, Private, now, now))
  }

  /** A stored donation as the handlers load it: a status field that was
      cleared reads back as the schema default `available`; every other field
      is as stored. */
  function Loaded(d: Donation): (r: Donation)
    ensures d.status == Unset ==> r.status == Available
    ensures d.status != Unset ==> r.status == d.status
    ensures r.(status := d.status) == d
  {
    if d.status == Unset then d.(status := Available) else d
  }

  /** A draft whose expiry already passed is accepted like any other. */
  lemma PastExpiryAccepted(id: Id, d: Draft, now: Millis)
    requires Valid(d) && d.expiryDate.value <= now
    ensures Create(id, d, now).Some?
    ensures Create(id, d, now).value.expiryDate <= now
  {
  }

  /** A draft missing any required field is refused. */
  lemma MissingRequiredRefused(id: Id, d: Draft, now: Millis)
    requires d.donor.None? || !Truthy(d.title) || d.foodType.None? || !Truthy(d.quantity) || d.expiryDate.None?
    ensures Create(id, d, now).None?
  {
  }
}

/** The two implementations of the food-location list of a donation: one on
    the Firestore document, where adding is a set union and the list may be
    absent, and one on the MongoDB (Mongoose) document, where adding appends.
    Both remove by a path index parsed with `parseInt`; an index outside the
    list removes nothing. */
module FoodLocations {
  import opened Wrappers
  import opened Domain
  import opened Seqs
  import JsNumber
  import DonationController

  // ---------------------------------------------------------------- lists

  /** `arrayUnion` of one point: appended unless an equal point is present. */
  function Union(list: seq<LatLng>, p: LatLng): (r: seq<LatLng>)
    ensures p in list ==> r == list
    ensures p !in list ==> r == list + [p]
    ensures p in r
    ensures forall q :: q in r <==> q in list || q == p
  {
    if p in list then list else list + [p]
  }

  predicate NoDuplicates(list: seq<LatLng>) {
    forall i, j :: 0 <= i < j < |list| ==> list[i] != list[j]
  }

  /** A union never introduces a duplicate, and a second union of the same
      point changes nothing. */
  lemma UnionIsSetLike(list: seq<LatLng>, p: LatLng)
    ensures NoDuplicates(list) ==> NoDuplicates(Union(list, p))
    ensures Union(Union(list, p), p) == Union(list, p)
  {
    if NoDuplicates(list) && p !in list {
      var r := list + [p];
      forall i, j | 0 <= i < j < |r| ensures r[i] != r[j] {
        if j == |list| {
          assert r[i] in list;
        }
      }
    }
  }

  /** The index deletion: `parseInt` of the path segment, removing that entry
      when it lies in the list and otherwise leaving the list as it was. */
  function RemoveByIndex(list: seq<LatLng>, index: string): (r: seq<LatLng>)
    ensures var k := JsNumber.ParseInt(index);
      k.Some? && 0 <= k.value < |list| ==> r == RemoveAt(list, k.value)
    ensures var k := JsNumber.ParseInt(index);
      !(k.Some? && 0 <= k.value < |list|) ==> r == list
  {
    var k := JsNumber.ParseInt(index);
    if k.Some? && 0 <= k.value < |list| then RemoveAt(list, k.value) else list
  }

  /** An in-range removal deletes exactly one entry and keeps the others in
      order. */
  lemma RemoveKeepsOrder(list: seq<LatLng>, k: nat)
    requires k < |list|
    ensures RemoveByIndex(list, JsNumber.Show(k)) == list[..k] + list[k + 1..]
    ensures |RemoveByIndex(list, JsNumber.Show(k))| == |list| - 1
  {
    JsNumber.ParseShow(k);
    assert RemoveAt(list, k) == list[..k] + list[k + 1..];
  }

  /** Negative, too large and non-numeric indices remove nothing; `"0x"`
      and `"0xZ"` are non-numeric. */
  lemma OutOfRangeRemovesNothing(list: seq<LatLng>, k: int, junk: string)
    requires k < 0 || k >= |list|
    requires JsNumber.ParseInt(junk).None?
    ensures RemoveByIndex(list, JsNumber.Show(k)) == list
    ensures RemoveByIndex(list, junk) == list
    ensures RemoveByIndex(list, "0x") == list && RemoveByIndex(list, "0xZ") == list
  {
    JsNumber.ParseShow(k);
    JsNumber.HexWithoutDigits();
  }

  /** The index is read with the radix-less `parseInt`, so `"0x1"` removes the
      second entry, not the first. */
  lemma HexIndexRemovesSecond(list: seq<LatLng>)
    requires |list| >= 2
    ensures RemoveByIndex(list, "0x1") == [list[0]] + list[2..]
  {
    JsNumber.HexExamples();
    assert RemoveAt(list, 1) == [list[0]] + list[2..];
  }

  // ---------------------------------------------------------------- Firestore variant

  /** A donation document as Firestore returns it: the donor reference and
      the food-location list may both be absent. */
  datatype Doc = Doc(donor: Option<Id>, foodLocations: Option<seq<LatLng>>, updatedAt: Millis)

  function Stored(doc: Doc): seq<LatLng> {
    doc.foodLocations.GetOr([])
  }

  /** `POST /donations/:id/food-locations`: only the donor may add (403); the
      point is united into the list and the server time stamped even when the
      point was present; the response is the list after the update. The body's
      `lat` and `lng` are taken unchecked, and Firestore refuses an undefined
      value in the update (500). */
  function AddToDoc(doc: Option<Doc>, actor: Actor, lat: Option<real>, lng: Option<real>, now: Millis)
    : (r: Result<(Doc, seq<LatLng>), HttpError>)
    ensures doc.None? ==> r == Failure(NotFound)
    ensures doc.Some? && doc.value.donor != Some(actor.id) ==> r == Failure(Forbidden)
    ensures doc.Some? && doc.value.donor == Some(actor.id) && (lat.None? || lng.None?) ==> r == Failure(ServerError)
    ensures r.Success? <==> doc.Some? && doc.value.donor == Some(actor.id) && lat.Some? && lng.Some?
    ensures r.Success? ==>
      && r.value.1 == Union(Stored(doc.value), LatLng(lat.value, lng.value))
      && r.value.0 == Doc(doc.value.donor, Some(r.value.1), now)
  {
    match doc
    case None => Failure(NotFound)
    case Some(d) =>
      if d.donor != Some(actor.id) then Failure(Forbidden)
      else if lat.None? || lng.None? then Failure(ServerError)
      else
        var list := Union(Stored(d), LatLng(lat.value, lng.value));
        Success((d.(foodLocations := Some(list), updatedAt := now), list))
  }

  /** `GET /donations/:id/food-locations`: the list, empty when absent. */
  function GetFromDoc(doc: Option<Doc>): (r: Result<seq<LatLng>, HttpError>)
    ensures doc.None? ==> r == Failure(NotFound)
    ensures doc.Some? && doc.value.foodLocations.None? ==> r == Success([])
    ensures doc.Some? && doc.value.foodLocations.Some? ==> r == Success(doc.value.foodLocations.value)
  {
    match doc
    case None => Failure(NotFound)
    case Some(d) => Success(Stored(d))
  }

  /** `DELETE /donations/:id/food-locations/:index`: the donor or an admin
      (403 otherwise). An in-range index is removed and written with the server
      time; otherwise nothing is written. The response is the list either way. */
  function RemoveFromDoc(doc: Option<Doc>, actor: Actor, index: string, now: Millis)
    : (r: Result<(Doc, seq<LatLng>), HttpError>)
    ensures doc.None? ==> r == Failure(NotFound)
    ensures doc.Some? && doc.value.donor != Some(actor.id) && actor.role != Admin ==> r == Failure(Forbidden)
    ensures r.Success? <==> doc.Some? && (doc.value.donor == Some(actor.id) || actor.role == Admin)
    ensures r.Success? ==> r.value.1 == RemoveByIndex(Stored(doc.value), index)
    ensures r.Success? && |r.value.1| == |Stored(doc.value)| ==> r.value.0 == doc.value
    ensures r.Success? && |r.value.1| < |Stored(doc.value)| ==> r.value.0 == Doc(doc.value.donor, Some(r.value.1), now)
  {
    match doc
    case None => Failure(NotFound)
    case Some(d) =>
      if d.donor != Some(actor.id) && actor.role != Admin then Failure(Forbidden)
      else
        var k := JsNumber.ParseInt(index);
        var list := Stored(d);
        if k.Some? && 0 <= k.value < |list| then
          var list' := RemoveAt(list, k.value);
          Success((d.(foodLocations := Some(list'), updatedAt := now), list'))
        else Success((d, list))
  }

  /** Adding a new point and then removing the last index restores the list
      the donor started with. */
  lemma DocAddThenRemoveLast(d: Doc, actor: Actor, p: LatLng, t1: Millis, t2: Millis)
    requires d.donor == Some(actor.id) && p !in Stored(d)
    ensures var added := AddToDoc(Some(d), actor, Some(p.lat), Some(p.lng), t1).value.0;
      RemoveFromDoc(Some(added), actor, JsNumber.Show(|Stored(d)|), t2).value.1 == Stored(d)
  {
    JsNumber.ParseShow(|Stored(d)|);
    var list := Stored(d) + [p];
    assert RemoveAt(list, |Stored(d)|) == Stored(d);
  }

  // ---------------------------------------------------------------- MongoDB (Mongoose) variant

  /** `addFoodLocation` on the Mongoose document: only the donor (403); the point is
      appended, duplicates included. The body's `lat` and `lng` are taken
      unchecked, and an absent one fails the schema's required check at the
      save (500). */
  function AddToDonation(stored: Option<Donation>, actor: Actor, lat: Option<real>, lng: Option<real>, now: Millis)
    : (r: Result<Donation, HttpError>)
    ensures stored.None? ==> r == Failure(NotFound)
    ensures stored.Some? && stored.value.donor != actor.id ==> r == Failure(Forbidden)
    ensures stored.Some? && stored.value.donor == actor.id && (lat.None? || lng.None?) ==> r == Failure(ServerError)
    ensures r.Success? <==> stored.Some? && stored.value.donor == actor.id && lat.Some? && lng.Some?
    ensures r.Success? ==>
      && r.value.foodLocations == stored.value.foodLocations + [LatLng(lat.value, lng.value)]
      && |r.value.foodLocations| == |stored.value.foodLocations| + 1
      && r.value == stored.value.(foodLocations := r.value.foodLocations, updatedAt := now)
  {
    match stored
    case None => Failure(NotFound)
    case Some(d) =>
      if d.donor != actor.id then Failure(Forbidden)
      else if lat.None? || lng.None? then Failure(ServerError)
      else Success(DonationController.Save(d, d.(foodLocations := d.foodLocations + [LatLng(lat.value, lng.value)]), now))
  }

  /** `getFoodLocations` on the Mongoose document. */
  function GetFromDonation(stored: Option<Donation>): (r: Result<seq<LatLng>, HttpError>)
    ensures stored.None? ==> r == Failure(NotFound)
    ensures stored.Some? ==> r == Success(stored.value.foodLocations)
  {
    match stored
    case None => Failure(NotFound)
    case Some(d) => Success(d.foodLocations)
  }

  /** `removeFoodLocation` on the Mongoose document: the donor or an admin (403);
      an in-range index is spliced out and saved, otherwise nothing is saved. */
  function RemoveFromDonation(stored: Option<Donation>, actor: Actor, index: string, now: Millis)
    : (r: Result<Donation, HttpError>)
    ensures stored.None? ==> r == Failure(NotFound)
    ensures stored.Some? && stored.value.donor != actor.id && actor.role != Admin ==> r == Failure(Forbidden)
    ensures r.Success? <==> stored.Some? && (stored.value.donor == actor.id || actor.role == Admin)
    ensures r.Success? ==> r.value.foodLocations == RemoveByIndex(stored.value.foodLocations, index)
    ensures var k := JsNumber.ParseInt(index);
      r.Success? && k.Some? && 0 <= k.value < |stored.value.foodLocations| ==> r.value.updatedAt == now
    ensures r.Success? ==> r.value.(foodLocations := stored.value.foodLocations, updatedAt := stored.value.updatedAt)
                           == stored.value
    ensures r.Success? && r.value.foodLocations == stored.value.foodLocations ==> r.value == stored.value
  {
    match stored
    case None => Failure(NotFound)
    case Some(d) =>
      if d.donor != actor.id && actor.role != Admin then Failure(Forbidden)
      else
        var k := JsNumber.ParseInt(index);
        if k.Some? && 0 <= k.value < |d.foodLocations| then
          Success(DonationController.Save(d, d.(foodLocations := RemoveAt(d.foodLocations, k.value)), now))
        else Success(d)
  }

  /** Appending a point, even one already present, and removing the last index
      restores the list. */
  lemma DonationAddThenRemoveLast(d: Donation, actor: Actor, p: LatLng, t1: Millis, t2: Millis)
    requires d.donor == actor.id
    ensures var added := AddToDonation(Some(d), actor, Some(p.lat), Some(p.lng), t1).value;
      RemoveFromDonation(Some(added), actor, JsNumber.Show(|d.foodLocations|), t2).value.foodLocations
        == d.foodLocations
  {
    JsNumber.ParseShow(|d.foodLocations|);
    assert RemoveAt(d.foodLocations + [p], |d.foodLocations|) == d.foodLocations;
  }

  /** The two variants differ exactly on a repeated point: the union keeps one
      copy, the append keeps both. */
  lemma VariantsDifferOnRepeat(d: Donation, actor: Actor, p: LatLng, now: Millis)
    requires d.donor == actor.id && p in d.foodLocations
    ensures Union(d.foodLocations, p) == d.foodLocations
    ensures |AddToDonation(Some(d), actor, Some(p.lat), Some(p.lng), now).value.foodLocations| == |d.foodLocations| + 1
  {
  }
}

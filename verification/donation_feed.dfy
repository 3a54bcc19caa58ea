/** The NGO donation feed: the listing query it sends and the local removal
    on accept and decline. */
module DonationFeed {
  import opened Wrappers
  import opened ClientLists

  /** A query-string value as interpolated: a number, a literal, or the text of
      an undefined array element. */
  datatype QueryValue = Number(x: real) | Literal(text: string) | UndefinedValue

  /** Element `i` of the stored coordinate array, undefined past its end. */
  function At(coords: seq<real>, i: nat): QueryValue {
    if i < |coords| then Number(coords[i]) else UndefinedValue
  }

  /** The query of `fetchDonations`: radius 50 always; the user's stored
      `[lng, lat]` pair sent as `lat` then `lng`; without a stored location the
      fixed fallback point. */
  function FeedQuery(userCoordinates: Option<seq<real>>): (q: seq<(string, QueryValue)>)
    ensures |q| == 3 && q[0] == ("radius", Literal("50")) && q[1].0 == "lat" && q[2].0 == "lng"
    ensures userCoordinates.Some? && |userCoordinates.value| >= 2 ==>
      q[1].1 == Number(userCoordinates.value[1]) && q[2].1 == Number(userCoordinates.value[0])
    ensures userCoordinates.None? ==> q[1].1 == Literal("28.6139") && q[2].1 == Literal("77.2090")
  {
    match userCoordinates
    case Some(c) => [("radius", Literal("50")), ("lat", At(c, 1)), ("lng", At(c, 0))]
    case None => [("radius", Literal("50")), ("lat", Literal("28.6139")), ("lng", Literal("77.2090"))]
  }

  /** An empty stored array is still used: both coordinates are sent as
      undefined rather than falling back. */
  lemma EmptyCoordinatesSendUndefined()
    ensures FeedQuery(Some([]))[1].1 == UndefinedValue && FeedQuery(Some([]))[2].1 == UndefinedValue
  {
  }

  /** For every stored array, reading the sent `lat` and `lng` back as a
      stored `[lng, lat]` pair gives the array's first two entries; a shorter
      array sends an undefined `lat`. */
  lemma FeedQueryReadsBack(c: seq<real>)
    ensures |c| >= 2 ==>
      var q := FeedQuery(Some(c));
      q[1].1.Number? && q[2].1.Number? && [q[2].1.x, q[1].1.x] == c[..2]
    ensures |c| < 2 ==> FeedQuery(Some(c))[1].1 == UndefinedValue
  {
  }

  /** Accept: only a confirmed accept whose claim succeeded removes the item. */
  function AfterAccept(list: seq<Listing>, id: string, confirmed: bool, claimSucceeded: bool): (r: seq<Listing>)
    ensures confirmed && claimSucceeded ==> r == WithoutId(list, id)
    ensures !(confirmed && claimSucceeded) ==> r == list
  {
    if confirmed && claimSucceeded then WithoutId(list, id) else list
  }

  /** Decline removes the item locally and sends nothing. */
  function AfterDecline(list: seq<Listing>, id: string): (r: seq<Listing>)
    ensures !HasId(r, id) && (forall x :: x in r <==> x in list && x.id != id)
  {
    WithoutId(list, id)
  }
}

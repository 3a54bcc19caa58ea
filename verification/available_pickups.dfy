/** The volunteer's list of available pickups: urgency badges, the broadcast
    reducers, the search-and-type filter and the removal after an accept. */
module AvailablePickups {
  import opened Wrappers
  import opened Seqs
  import opened ClientLists

  datatype Urgency = High | Medium | Low

  /** The badge from the hours left until expiry: below 2 h high, below 6 h
      medium, otherwise low. An expired pickup is high. */
  function UrgencyOf(expiryDate: int, now: int): (u: Urgency)
    ensures u == High <==> expiryDate - now < 2 * HourMs
    ensures u == Medium <==> 2 * HourMs <= expiryDate - now < 6 * HourMs
    ensures u == Low <==> expiryDate - now >= 6 * HourMs
  {
    var hoursLeft := (expiryDate - now) as real / HourMs as real;
    if hoursLeft < 2.0 then High else if hoursLeft < 6.0 then Medium else Low
  }

  /** `new_donation`: the new item goes first, the rest keep their order. */
  function OnNewDonation(list: seq<Listing>, item: Listing): (r: seq<Listing>)
    ensures |r| == |list| + 1 && r[0] == item && r[1..] == list
  {
    [item] + list
  }

  /** `donation_updated`: a donation no longer available leaves the list; an
      available one replaces the entry with its id. */
  function OnDonationUpdated(list: seq<Listing>, item: Listing): (r: seq<Listing>)
    ensures item.status != "available" ==> !HasId(r, item.id) && (forall x :: x in r <==> x in list && x.id != item.id)
    ensures item.status == "available" ==> |r| == |list|
    ensures item.status == "available" ==>
      forall i :: 0 <= i < |list| ==> r[i] == (if list[i].id == item.id then item else list[i])
  {
    if item.status != "available" then WithoutId(list, item.id) else ReplaceById(list, item)
  }

  predicate MatchesType(p: Listing, filter: string) {
    filter == "all" || p.foodType == filter
  }

  /** Case-insensitive substring search in the title or, when the donor was
      populated with a name, in the donor's name. */
  predicate MatchesSearch(p: Listing, query: string) {
    ContainsIgnoringCase(p.title, query)
    || (p.donor.Populated? && p.donor.name.Some? && ContainsIgnoringCase(p.donor.name.value, query))
  }

  /** `p.donor?.name.toLowerCase()` runs only when the title does not match.
      It throws when the donor is there but has no name: an unpopulated
      reference, or a populated user without a name. A missing donor stops
      the optional chain and does not throw. */
  predicate Throws(p: Listing, query: string) {
    && !ContainsIgnoringCase(p.title, query)
    && (p.donor.DonorId? || (p.donor.Populated? && p.donor.name.None?))
  }

  predicate Shown(p: Listing, filter: string, query: string) {
    MatchesSearch(p, query) && MatchesType(p, filter)
  }

  /** The rendered list; `None` when evaluating the filter throws, which
      happens as soon as any entry throws, whatever its food type. */
  function FilteredPickups(list: seq<Listing>, filter: string, query: string): (r: Option<seq<Listing>>)
    ensures r.None? <==> exists i :: 0 <= i < |list| && Throws(list[i], query)
    ensures r.Some? ==> forall x :: x in r.value <==> x in list && Shown(x, filter, query)
    ensures r.Some? ==> multiset(r.value) <= multiset(list)
    ensures r.Some? ==> forall x :: multiset(r.value)[x] == if Shown(x, filter, query) then multiset(list)[x] else 0
    ensures r.Some? ==> InOrderWithin(r.value, list)
  {
    if exists i :: 0 <= i < |list| && Throws(list[i], query) then None
    else
      var keep := (p: Listing) => Shown(p, filter, query);
      FilterCounts(list, keep);
      Some(Filter(list, keep))
  }

  /** With an empty search box nothing throws and only the food-type filter
      applies. */
  lemma EmptyQueryFiltersByTypeOnly(list: seq<Listing>, filter: string)
    ensures FilteredPickups(list, filter, "") == Some(Filter(list, (p: Listing) => MatchesType(p, filter)))
  {
    forall i | 0 <= i < |list| ensures !Throws(list[i], "") {
      ContainsEmpty(Lower(list[i].title));
    }
    forall x | x in list ensures Shown(x, filter, "") == MatchesType(x, filter) {
      ContainsEmpty(Lower(x.title));
    }
    FilterCongruent(list, (p: Listing) => Shown(p, filter, ""), (p: Listing) => MatchesType(p, filter));
  }

  /** A `new_donation` broadcast carries the donor as an unpopulated reference,
      so once it is listed, any search its title does not match throws. */
  lemma BroadcastEntryBreaksSearch(list: seq<Listing>, item: Listing, filter: string, query: string)
    requires item.donor.DonorId? && !ContainsIgnoringCase(item.title, query)
    ensures FilteredPickups(OnNewDonation(list, item), filter, query).None?
  {
    assert Throws(OnNewDonation(list, item)[0], query);
  }

  /** Accepting: after a successful claim exactly that id leaves the list; a
      failed claim leaves it alone. */
  function AfterAccept(list: seq<Listing>, id: string, claimSucceeded: bool): (r: seq<Listing>)
    ensures claimSucceeded ==> !HasId(r, id) && (forall x :: x in r <==> x in list && x.id != id)
    ensures !claimSucceeded ==> r == list
  {
    if claimSucceeded then WithoutId(list, id) else list
  }
}
